/**
 * app/config.go: the HTTP server's settings. Durations are Go
 * time.Duration values, counted in nanoseconds; zero means "not set".
 */
module AppConfig {

  const Second: int := 1_000_000_000
  const DefaultAddr := ":8080"

  datatype Config = Config(
    addr: string,
    readTimeout: int,
    readHeaderTimeout: int,
    writeTimeout: int,
    idleTimeout: int,
    shutdownTimeout: int)

  /** No field is left at its zero value. */
  predicate Complete(c: Config) {
    && c.addr != ""
    && c.readHeaderTimeout != 0 && c.readTimeout != 0 && c.writeTimeout != 0
    && c.idleTimeout != 0 && c.shutdownTimeout != 0
  }

  /** DefaultConfig: ":8080", 5s to read headers, 15s to read and to write, 60s idle, 5s to shut down. */
  function DefaultConfig(): (c: Config)
    ensures Complete(c)
    ensures c.addr == ":8080"
    ensures c.readHeaderTimeout == 5 * Second && c.readTimeout == 15 * Second
    ensures c.writeTimeout == 15 * Second && c.idleTimeout == 60 * Second
    ensures c.shutdownTimeout == 5 * Second
  {
    Config(DefaultAddr, 15 * Second, 5 * Second, 15 * Second, 60 * Second, 5 * Second)
  }

  /** One field: the default when the given value is the zero value. */
  function OrDefault<T(==)>(v: T, zero: T, default: T): T {
    if v == zero then default else v
  }

  /**
   * withDefaults: every zero field takes the default, every other field is
   * kept, so the result is complete and a complete config is returned as is.
   */
  function WithDefaults(cfg: Config): (r: Config)
    ensures Complete(r)
    ensures Complete(cfg) ==> r == cfg
    ensures cfg.addr != "" ==> r.addr == cfg.addr
    ensures cfg.readTimeout != 0 ==> r.readTimeout == cfg.readTimeout
    ensures cfg.readHeaderTimeout != 0 ==> r.readHeaderTimeout == cfg.readHeaderTimeout
    ensures cfg.writeTimeout != 0 ==> r.writeTimeout == cfg.writeTimeout
    ensures cfg.idleTimeout != 0 ==> r.idleTimeout == cfg.idleTimeout
    ensures cfg.shutdownTimeout != 0 ==> r.shutdownTimeout == cfg.shutdownTimeout
    ensures cfg.addr == "" ==> r.addr == DefaultConfig().addr
    ensures cfg.readTimeout == 0 ==> r.readTimeout == DefaultConfig().readTimeout
    ensures cfg.readHeaderTimeout == 0 ==> r.readHeaderTimeout == DefaultConfig().readHeaderTimeout
    ensures cfg.writeTimeout == 0 ==> r.writeTimeout == DefaultConfig().writeTimeout
    ensures cfg.idleTimeout == 0 ==> r.idleTimeout == DefaultConfig().idleTimeout
    ensures cfg.shutdownTimeout == 0 ==> r.shutdownTimeout == DefaultConfig().shutdownTimeout
  {
    var def := DefaultConfig();
    Config(
      OrDefault(cfg.addr, "", def.addr),
      OrDefault(cfg.readTimeout, 0, def.readTimeout),
      OrDefault(cfg.readHeaderTimeout, 0, def.readHeaderTimeout),
      OrDefault(cfg.writeTimeout, 0, def.writeTimeout),
      OrDefault(cfg.idleTimeout, 0, def.idleTimeout),
      OrDefault(cfg.shutdownTimeout, 0, def.shutdownTimeout))
  }

  /** Applying the defaults twice changes nothing more. */
  lemma WithDefaultsIdempotent(cfg: Config)
    ensures WithDefaults(WithDefaults(cfg)) == WithDefaults(cfg)
  {
    assert Complete(WithDefaults(cfg));
  }
}
