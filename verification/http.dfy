/**
 * Values that several packages of the toolkit pass between each other:
 * HTTP method names, handlers and middleware (by identity and by how they
 * were composed), and route parameters.
 */
module Http {

  const MethodGet := "GET"
  const MethodPost := "POST"
  const MethodPut := "PUT"
  const MethodPatch := "PATCH"
  const MethodDelete := "DELETE"
  const MethodOptions := "OPTIONS"

  const StatusOK := 200
  const StatusCreated := 201
  const StatusNoContent := 204
  const StatusBadRequest := 400
  const StatusNotFound := 404
  const StatusMethodNotAllowed := 405
  const StatusRequestEntityTooLarge := 413
  const StatusInternalServerError := 500
  const StatusGatewayTimeout := 504

  /** A middleware value: the toolkit's own ones and the application's, by identity. */
  datatype Middleware =
    | RecoverMw
    | RequestIdMw
    | TimeoutMw(nanos: int)
    | AppMw(id: nat)

  /**
   * An http.Handler value. Application handlers are known by identity; the
   * others record how the toolkit built them, so that composition order can
   * be stated.
   */
  datatype Handler =
    | Endpoint(id: nat)                     // a handler the application supplies
    | Adapted(fn: nat)                      // httpkit.Adapt of business handler `fn`
    | Wrapped(mw: Middleware, inner: Handler) // mw(inner)
    | RouterRoot                            // the server's own router
    | WithHealth(inner: Handler)            // app.WithHealth(inner)
    | WithPprof(inner: Handler)             // app.WithPprof(inner)
    | Noop                                  // a handler that does nothing

  /** router.RouteParam */
  datatype RouteParam = RouteParam(key: string, value: string)
}
