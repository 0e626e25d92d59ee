/**
 * The storefront layout: the displayed user and how it is reloaded, the
 * token-expiry check run on mount, logout, the account menu and the cart
 * badge.
 *
 * Times are whole milliseconds; a token's `exp` is in whole seconds. The
 * source compares `exp` with `Date.now() / 1000`, which is the same as
 * comparing `exp * 1000` with the clock in milliseconds.
 */
module UserLayout {
  import opened Common
  import opened Storage

  /** What the mount-time expiry check decides. */
  datatype Expiry =
    | NoCheck              // no token stored
    | LogoutNow            // expired, or the token does not decode
    | ArmTimer(delay: int) // logout scheduled after `delay` milliseconds

  /** The result of `jwtDecode(token)`: it threw, or it gave a payload with an optional `exp`. */
  datatype Decoded = Undecodable | Payload(exp: Option<int>)

  /**
   * The expiry effect with the stored token, its decoding and the clock.
   * A payload without `exp` compares as not expired and yields a `NaN`
   * delay, which the timer treats as zero.
   */
  function CheckExpiry(token: Option<string>, decoded: Decoded, nowMs: int): (r: Expiry)
    ensures !Truthy(token) ==> r == NoCheck
    ensures Truthy(token) && decoded.Undecodable? ==> r == LogoutNow
    ensures Truthy(token) && decoded.Payload? && decoded.exp.Some? ==>
      (r == LogoutNow <==> decoded.exp.value * 1000 < nowMs)
    ensures r.ArmTimer? ==> r.delay >= 0
    ensures r.ArmTimer? && decoded.Payload? && decoded.exp.Some? ==> nowMs + r.delay == decoded.exp.value * 1000
    ensures Truthy(token) && decoded.Payload? && decoded.exp.None? ==> r == ArmTimer(0)
  {
    if !Truthy(token) then NoCheck
    else match decoded
      case Undecodable => LogoutNow
      case Payload(exp) =>
        if exp.None? then ArmTimer(0)
        else if exp.value * 1000 < nowMs then LogoutNow
        else ArmTimer(exp.value * 1000 - nowMs)
  }

  /** The layout's state: the displayed user and where the router points. */
  datatype Shell = Shell(user: Option<User>, navigate: Option<string>)

  /** `handleLogout`: both keys removed, no user shown, and the login page. */
  function Logout(s: Store, shell: Shell): (r: (Store, Shell))
    ensures r.0.user == Absent && r.0.token == None && r.0.remembered == s.remembered
    ensures r.1.user == None && r.1.navigate == Some("/auth/login")
  {
    (ClearSession(s), Shell(None, Some("/auth/login")))
  }

  /**
   * `loadUser` as the two listeners run it: a stored user replaces the
   * displayed one and refreshes the cart badge; a missing one changes
   * nothing; an unreadable one makes `JSON.parse` throw out of the listener,
   * so it changes nothing either. The boolean is the badge refresh.
   */
  function LoadUser(stored: Slot<User>, shown: Option<User>): (r: (Option<User>, bool))
    ensures stored.Present? ==> r.0 == Some(stored.value) && r.1
    ensures !stored.Present? ==> r.0 == shown && !r.1
  {
    if stored.Present? then (Some(stored.value), true) else (shown, false)
  }

  /** The layout after its mount effect: still mounting listeners, or stopped by a throw. */
  datatype Mounted = Crashed | Listening(shown: Option<User>, refresh: bool)

  /**
   * The mount effect: the first `loadUser`, then the two listeners. An
   * unreadable stored user throws out of the effect before either listener
   * is attached.
   */
  function Mount(stored: Slot<User>): (m: Mounted)
    ensures m.Crashed? <==> stored.Corrupt?
    ensures m.Listening? ==> (m.shown, m.refresh) == LoadUser(stored, None)
    ensures m.Listening? ==> (m.shown.Some? <==> stored.Present?)
  {
    if stored.Corrupt? then Crashed
    else
      var (shown, refresh) := LoadUser(stored, None);
      Listening(shown, refresh)
  }

  /** A `storage` event from another tab, with the key it concerns (`None` when storage was cleared). */
  function OnStorage(key: Option<string>, stored: Slot<User>, shown: Option<User>): (r: (Option<User>, bool))
    ensures key != Some("user") ==> r == (shown, false)
    ensures key == Some("user") ==> r == LoadUser(stored, shown)
  {
    if key == Some("user") then LoadUser(stored, shown) else (shown, false)
  }

  /** A logout in another tab removes the stored user, but this tab keeps showing it. */
  lemma RemoteLogoutKeepsUser(u: User)
    ensures OnStorage(Some("user"), Absent, Some(u)).0 == Some(u)
  {
  }

  /** The account menu's keys, with the dashboard first for an administrator. */
  function MenuKeys(user: Option<User>): (keys: seq<string>)
    ensures |keys| == 3 || |keys| == 4
    ensures keys[|keys| - 3..] == ["profile", "order-history", "logout"]
    ensures |keys| == 4 <==> user.Some? && IsAdmin(user.value)
    ensures |keys| == 4 ==> keys[0] == "dashboard"
  {
    var base := ["profile", "order-history", "logout"];
    if user.Some? && IsAdmin(user.value) then ["dashboard"] + base else base
  }

  /** The number on the cart badge. */
  function BadgeCount(user: Option<User>, count: int): int {
    if user.Some? then count else 0
  }

  /**
   * The badge follows the session: it reads 0 right after a logout, whatever
   * count the cart context still holds, and shows the count once a stored
   * user has been loaded.
   */
  lemma BadgeFollowsSession(s: Store, shell: Shell, stored: Slot<User>, shown: Option<User>, count: int)
    ensures BadgeCount(Logout(s, shell).1.user, count) == 0
    ensures stored.Present? ==> BadgeCount(LoadUser(stored, shown).0, count) == count
    ensures Mount(stored).Listening? && !stored.Present? ==> BadgeCount(Mount(stored).shown, count) == 0
  {
  }

  /** The largest delay the browser's timer keeps as given: `2^31 - 1` milliseconds. */
  const MaxTimeout := 0x7FFF_FFFF

  /**
   * The delay the browser actually waits for `setTimeout(f, d)`: the
   * argument goes through the 32-bit signed conversion of Web IDL's `long`
   * (wrapping modulo `2^32`), and a negative result waits zero.
   */
  function TimerDelay(d: int): (w: int)
    ensures 0 <= w <= MaxTimeout
    ensures 0 <= d <= MaxTimeout ==> w == d
  {
    var m := d % 0x1_0000_0000;
    var signed := if m > MaxTimeout then m - 0x1_0000_0000 else m;
    if signed < 0 then 0 else signed
  }

  /**
   * The instant the layout logs the user out, as written: at `nowMs` plus the
   * browser's delay for the armed timer.
   */
  function LogoutAt(nowMs: int, exp: int): (t: int)
    requires exp * 1000 >= nowMs
    ensures t >= nowMs
    ensures exp * 1000 - nowMs <= MaxTimeout ==> t == exp * 1000
  {
    nowMs + TimerDelay(CheckExpiry(Some("t"), Payload(Some(exp)), nowMs).delay)
  }

  /**
   * As written, a token that expires more than about 24.8 days ahead logs
   * the user out at once: its delay wraps to a negative value.
   */
  lemma LongTokenLogsOutAtOnce()
    ensures CheckExpiry(Some("t"), Payload(Some(2147484)), 0) == ArmTimer(2147484000)
    ensures LogoutAt(0, 2147484) == 0
  {
    assert CheckExpiry(Some("t"), Payload(Some(2147484)), 0) == ArmTimer(2147484000);
  }

  /**
   * The delay to arm instead: never more than the browser keeps, so a long
   * wait is served by re-arming when the shorter timer fires.
   */
  function SafeDelay(remaining: int): (d: int)
    requires remaining >= 0
    ensures 0 <= d <= remaining && d <= MaxTimeout
    ensures TimerDelay(d) == d
    ensures remaining <= MaxTimeout ==> d == remaining
    ensures remaining > MaxTimeout ==> d == MaxTimeout
  {
    if remaining <= MaxTimeout then remaining else MaxTimeout
  }

  /**
   * One capped timer never fires after the token expires, and fires exactly
   * at expiry whenever the browser can wait that long; a longer wait needs
   * the re-arming of `RearmedLogoutAt`.
   */
  lemma SafeTimerNeverLate(nowMs: int, exp: int)
    requires exp * 1000 >= nowMs
    ensures nowMs + TimerDelay(SafeDelay(exp * 1000 - nowMs)) <= exp * 1000
    ensures exp * 1000 - nowMs <= MaxTimeout ==> nowMs + TimerDelay(SafeDelay(exp * 1000 - nowMs)) == exp * 1000
  {
    var d := SafeDelay(exp * 1000 - nowMs);
    assert TimerDelay(d) == d;
  }

  /**
   * The corrected timer: arm the capped delay and, when it fires before the
   * expiry instant `expMs`, arm it again for the time that remains. The
   * result is the instant the user is logged out.
   */
  function RearmedLogoutAt(nowMs: int, expMs: int): (t: int)
    requires nowMs <= expMs
    decreases expMs - nowMs
  {
    var fired := nowMs + TimerDelay(SafeDelay(expMs - nowMs));
    if fired >= expMs then fired else RearmedLogoutAt(fired, expMs)
  }

  /** The re-arming timer logs out exactly at expiry: never early and never late. */
  lemma {:induction false} RearmedLogoutOnTime(nowMs: int, expMs: int)
    requires nowMs <= expMs
    ensures RearmedLogoutAt(nowMs, expMs) == expMs
    decreases expMs - nowMs
  {
    var fired := nowMs + TimerDelay(SafeDelay(expMs - nowMs));
    if fired < expMs {
      RearmedLogoutOnTime(fired, expMs);
    }
  }

  /** The re-arming timer on a token's `exp`: the logout the long token of `LongTokenLogsOutAtOnce` should get. */
  lemma RearmedLongToken()
    ensures RearmedLogoutAt(0, 2147484 * 1000) == 2147484000
  {
    RearmedLogoutOnTime(0, 2147484 * 1000);
  }
}
