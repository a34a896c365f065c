/**
 * The ticker's configuration: the defaults, how the caller's options override
 * them (`$.extend({}, defaults, options)`), and the hold time of one item.
 * Durations are milliseconds, handed unchanged to the host's timers.
 */
module Config {
  import opened Wrappers

  /** The effective options of one ticker instance. */
  datatype Options = Options(tickerDefaultDuration: int, animationDuration: int, pauseOnHover: bool)

  /** What a caller passes to the plugin; a key it leaves out (or sets to undefined) is None. */
  datatype UserOptions = UserOptions(
    tickerDefaultDuration: Option<int>,
    animationDuration: Option<int>,
    pauseOnHover: Option<bool>)

  const DefaultOptions: Options := Options(2000, 500, false)

  const NoUserOptions: UserOptions := UserOptions(None, None, None)

  /** The defaults overridden, key by key, by the keys the caller supplied. */
  function Configure(user: UserOptions): (o: Options)
    ensures user.tickerDefaultDuration.Some? ==> o.tickerDefaultDuration == user.tickerDefaultDuration.value
    ensures user.tickerDefaultDuration.None? ==> o.tickerDefaultDuration == 2000
    ensures user.animationDuration.Some? ==> o.animationDuration == user.animationDuration.value
    ensures user.animationDuration.None? ==> o.animationDuration == 500
    ensures user.pauseOnHover.Some? ==> o.pauseOnHover == user.pauseOnHover.value
    ensures user.pauseOnHover.None? ==> !o.pauseOnHover
  {
    Options(
      user.tickerDefaultDuration.GetOr(DefaultOptions.tickerDefaultDuration),
      user.animationDuration.GetOr(DefaultOptions.animationDuration),
      user.pauseOnHover.GetOr(DefaultOptions.pauseOnHover))
  }

  /**
   * How long an item stays current: its own `ticker-duration` data value when
   * it has one (any value, 0 included), otherwise the configured default.
   */
  function TimeoutDuration(options: Options, d: Option<int>): (r: int)
    ensures d.Some? ==> r == d.value
    ensures d.None? ==> r == options.tickerDefaultDuration
  {
    match d
    case None => options.tickerDefaultDuration
    case Some(v) => v
  }

  /**
   * The hold time seen through the whole configuration: the per-item value,
   * else the caller's default, else 2000 ms.
   */
  lemma HoldTimeUnderConfiguration(user: UserOptions, d: Option<int>)
    ensures TimeoutDuration(Configure(user), d) ==
      if d.Some? then d.value
      else if user.tickerDefaultDuration.Some? then user.tickerDefaultDuration.value
      else 2000
  {
  }

  /** With no options given, the configuration is exactly the defaults. */
  lemma ConfigureWithoutOptions()
    ensures Configure(NoUserOptions) == DefaultOptions
    ensures DefaultOptions == Options(2000, 500, false)
  {
  }
}
