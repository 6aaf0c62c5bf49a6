/**
 * The in-memory side of the session service: a map from e-mail address to a
 * saved browser session, the validator applied to loaded sessions, the
 * expiry sweep, and the operations that read, save, apply, delete and clear
 * sessions. Timestamps are whole seconds; the clock is a parameter.
 */
module Sessions {
  import opened Common

  /** `timedelta(hours=12)`, in seconds. */
  const MaxSessionAge: int := 12 * 60 * 60

  /** A date field after `datetime.fromisoformat`: parsed to an instant, or the `ValueError` it raises. */
  datatype Stamp = Unparseable | At(seconds: int)

  /** One browser cookie; only the `expiry` entry is touched by the service. */
  datatype Cookie = Cookie(name: string, value: string, expiry: Option<real>)

  /** The `cookies` entry: a list of cookies or some other JSON value. */
  datatype CookieField = CookieList(items: seq<Cookie>) | NotAList

  /** A session record; `None` is a key absent from the dictionary. */
  datatype SessionData = SessionData(
    cookies: Option<CookieField>,
    createdAt: Option<Stamp>,
    lastUsed: Option<Stamp>,
    userAgent: Option<string>)

  /** The empty dictionary, which `if not session_data` treats like a missing session. */
  predicate IsEmptyRecord(d: SessionData) {
    d.cookies.None? && d.createdAt.None? && d.lastUsed.None? && d.userAgent.None?
  }

  /** `_validate_session_data` at instant `now`. */
  predicate ValidSessionData(d: SessionData, now: int) {
    && d.cookies.Some? && d.createdAt.Some? && d.lastUsed.Some?
    && d.createdAt.value.At? && d.lastUsed.value.At?
    && !(now - d.createdAt.value.seconds > MaxSessionAge)
    && d.cookies.value.CookieList? && d.cookies.value.items != []
  }

  /** The validator rejects a record in exactly the four cases it checks for. */
  lemma ValidatorRejections(d: SessionData, now: int)
    ensures !ValidSessionData(d, now) <==>
            || d.cookies.None? || d.createdAt.None? || d.lastUsed.None?
            || d.createdAt.value.Unparseable? || d.lastUsed.value.Unparseable?
            || now - d.createdAt.value.seconds > MaxSessionAge
            || d.cookies.value.NotAList? || d.cookies.value.items == []
  {
  }

  /** A record the expiry sweep removes: `last_used` missing, unparseable, or older than the maximum age. */
  predicate Expired(d: SessionData, now: int) {
    match d.lastUsed
    case None => true
    case Some(Unparseable) => true
    case Some(At(t)) => now - t > MaxSessionAge
  }

  /** The sessions the sweep at `now` keeps, each unchanged. */
  function Live(sessions: map<string, SessionData>, now: int): (r: map<string, SessionData>)
    ensures r.Keys <= sessions.Keys
    ensures forall e :: e in sessions ==> (e in r <==> !Expired(sessions[e], now))
    ensures forall e :: e in r ==> r[e] == sessions[e]
  {
    map e | e in sessions && !Expired(sessions[e], now) :: sessions[e]
  }

  /** Sweeping twice at the same instant removes nothing more. */
  lemma LiveIdempotent(sessions: map<string, SessionData>, now: int)
    ensures Live(Live(sessions, now), now) == Live(sessions, now)
  {
  }

  /** A later sweep keeps no session an earlier one removed. */
  lemma LiveShrinksOverTime(sessions: map<string, SessionData>, now: int, later: int)
    requires now <= later
    ensures Live(sessions, later).Keys <= Live(sessions, now).Keys
  {
  }

  /** `cookie['expiry'] = int(cookie['expiry'])` when the cookie has an expiry. */
  function WholeExpiry(c: Cookie): (r: Cookie)
    ensures r.name == c.name && r.value == c.value
    ensures r.expiry.Some? <==> c.expiry.Some?
    ensures c.expiry.Some? ==> r.expiry.value == Truncate(c.expiry.value) as real
  {
    match c.expiry
    case None => c
    case Some(x) => c.(expiry := Some(Truncate(x) as real))
  }

  /** Truncating the expiry a second time changes nothing. */
  lemma WholeExpiryIdempotent(c: Cookie)
    ensures WholeExpiry(WholeExpiry(c)) == c.(expiry := WholeExpiry(c).expiry)
    ensures WholeExpiry(WholeExpiry(c)) == WholeExpiry(c)
  {
    if c.expiry.Some? {
      var n := Truncate(c.expiry.value);
      assert (n as real).Floor == n;
      assert (-(n as real)).Floor == -n;
    }
  }

  /** How `apply_session` ends for a stored record, before it touches the map. */
  datatype ApplyDecision = NotFound | Broken | Stale | Applied(updated: SessionData)

  /**
   * `apply_session`'s decision: a missing or empty record is not found; a
   * missing or unparseable `created_at` raises before anything changes; an old
   * one removes the session; a page that fails to load, or a `cookies` entry
   * that is missing or not a list, raises; otherwise the cookies get whole
   * expiries and `last_used` becomes `now`.
   */
  function Decide(stored: Option<SessionData>, now: int, pageLoads: bool): ApplyDecision {
    if stored.None? || IsEmptyRecord(stored.value) then NotFound
    else
      var d := stored.value;
      if d.createdAt.None? || d.createdAt.value.Unparseable? then Broken
      else if now - d.createdAt.value.seconds > MaxSessionAge then Stale
      else if !pageLoads || d.cookies.None? || d.cookies.value.NotAList? then Broken
      else
        var cookies := d.cookies.value.items;
        Applied(d.(cookies := Some(CookieList(seq(|cookies|, i requires 0 <= i < |cookies| => WholeExpiry(cookies[i])))),
                   lastUsed := Some(At(now))))
  }

  /** An applied session keeps its creation time and is not removed by a sweep at the same instant. */
  lemma AppliedSurvivesSweep(stored: Option<SessionData>, now: int, pageLoads: bool)
    requires Decide(stored, now, pageLoads).Applied?
    ensures var u := Decide(stored, now, pageLoads).updated;
            && u.createdAt == stored.value.createdAt
            && u.lastUsed == Some(At(now))
            && !Expired(u, now)
  {
  }

  /** An applied session passed the age check, so it validates whenever its cookie list is non-empty. */
  lemma AppliedValidates(stored: Option<SessionData>, now: int, pageLoads: bool)
    requires Decide(stored, now, pageLoads).Applied?
    requires stored.value.lastUsed.Some? && stored.value.cookies.value.items != []
    ensures ValidSessionData(Decide(stored, now, pageLoads).updated, now)
  {
  }

  /** The record `save_session` builds from the driver's cookies and user agent at `now`. */
  function SavedRecord(cookies: seq<Cookie>, userAgent: string, now: int): (d: SessionData)
    ensures d.createdAt == d.lastUsed == Some(At(now))
  {
    SessionData(Some(CookieList(cookies)), Some(At(now)), Some(At(now)), Some(userAgent))
  }

  /** A freshly saved record is valid, and stays valid up to the maximum age. */
  lemma SavedRecordValid(cookies: seq<Cookie>, userAgent: string, now: int, later: int)
    requires cookies != [] && now <= later <= now + MaxSessionAge
    ensures ValidSessionData(SavedRecord(cookies, userAgent, now), later)
    ensures !Expired(SavedRecord(cookies, userAgent, now), later)
  {
  }

  class SessionService {
    var sessions: map<string, SessionData>

    /** A service with no sessions; loading saved session files is not part of this model. */
    constructor ()
      ensures sessions == map[]
    {
      sessions := map[];
    }

    /** `get_session`: the stored record, or `None` for an unknown address. */
    function GetSession(email: string): (r: Option<SessionData>)
      reads this
      ensures r.Some? <==> email in sessions
      ensures r.Some? ==> r.value == sessions[email]
    {
      if email in sessions then Some(sessions[email]) else None
    }

    /** The first half of `_cleanup_expired_sessions`: the addresses whose sessions have expired at `now`. */
    method ExpiredAddresses(now: int) returns (expired: seq<string>)
      ensures forall e :: e in expired <==> e in sessions && Expired(sessions[e], now)
    {
      expired := [];
      var pending := sessions.Keys;
      while pending != {}
        invariant pending <= sessions.Keys
        invariant forall e :: e in expired <==> e in sessions.Keys - pending && Expired(sessions[e], now)
        decreases |pending|
      {
        var e :| e in pending;
        if Expired(sessions[e], now) {
          expired := expired + [e];
        }
        pending := pending - {e};
      }
    }

    /** The second half: `self.sessions.pop(email, None)` for each collected address. */
    method PopAll(emails: seq<string>)
      modifies this
      ensures sessions == old(sessions) - set e | e in emails
    {
      var i := 0;
      while i < |emails|
        invariant 0 <= i <= |emails|
        invariant sessions == old(sessions) - set e | e in emails[..i]
      {
        assert emails[..i + 1] == emails[..i] + [emails[i]];
        sessions := sessions - {emails[i]};
        i := i + 1;
      }
      assert emails[..i] == emails;
    }

    /** `_cleanup_expired_sessions`: exactly the expired sessions are removed; the rest stay as they were. */
    method CleanupExpiredSessions(now: int) returns (expired: seq<string>)
      modifies this
      ensures sessions == Live(old(sessions), now)
      ensures forall e :: e in expired <==> e in old(sessions) && Expired(old(sessions)[e], now)
    {
      expired := ExpiredAddresses(now);
      PopAll(expired);
      assert sessions == Live(old(sessions), now);
    }

    /**
     * `save_session`: `cookies` is what the driver returned and `userAgent`
     * what its script gave (`None` when it raised). No cookies, or a failing
     * script, leaves the map unchanged and returns `None`.
     */
    method SaveSession(email: string, cookies: seq<Cookie>, userAgent: Option<string>, now: int)
      returns (r: Option<SessionData>)
      modifies this
      ensures cookies == [] || userAgent.None? ==> r.None? && sessions == old(sessions)
      ensures cookies != [] && userAgent.Some? ==>
              r == Some(SavedRecord(cookies, userAgent.value, now)) && sessions == old(sessions)[email := r.value]
    {
      if cookies == [] {
        return None;
      }
      if userAgent.None? {
        return None;
      }
      var data := SavedRecord(cookies, userAgent.value, now);
      sessions := sessions[email := data];
      r := Some(data);
    }

    /**
     * `apply_session` at instant `now`; `pageLoads` says whether opening the
     * blank page succeeded. Returns whether the session was applied and the
     * cookies handed to the driver.
     */
    method ApplySession(email: string, now: int, pageLoads: bool) returns (applied: bool, added: seq<Cookie>)
      modifies this
      ensures applied <==> Decide(old(GetSession(email)), now, pageLoads).Applied?
      ensures match Decide(old(GetSession(email)), now, pageLoads)
              case Applied(u) => sessions == old(sessions)[email := u] && u.cookies == Some(CookieList(added))
              case Stale => sessions == old(sessions) - {email} && added == []
              case _ => sessions == old(sessions) && added == []
    {
      var stored := GetSession(email);
      added := [];
      if stored.None? || IsEmptyRecord(stored.value) {
        return false, added;
      }
      var d := stored.value;
      if d.createdAt.None? || d.createdAt.value.Unparseable? {
        return false, added;
      }
      if now - d.createdAt.value.seconds > MaxSessionAge {
        sessions := sessions - {email};
        return false, added;
      }
      if !pageLoads || d.cookies.None? || d.cookies.value.NotAList? {
        return false, added;
      }
      var cookies := d.cookies.value.items;
      var i := 0;
      while i < |cookies|
        invariant 0 <= i <= |cookies|
        invariant |added| == i && forall j :: 0 <= j < i ==> added[j] == WholeExpiry(cookies[j])
      {
        added := added + [WholeExpiry(cookies[i])];
        i := i + 1;
      }
      assert added == seq(|cookies|, j requires 0 <= j < |cookies| => WholeExpiry(cookies[j]));
      var updated := d.(cookies := Some(CookieList(added)), lastUsed := Some(At(now)));
      sessions := sessions[email := updated];
      applied := true;
    }

    /** `delete_session`: true exactly when the address had a session; it has none afterwards. */
    method DeleteSession(email: string) returns (deleted: bool)
      modifies this
      ensures deleted <==> email in old(sessions)
      ensures sessions == old(sessions) - {email}
    {
      if email in sessions {
        sessions := sessions - {email};
        return true;
      }
      return false;
    }

    /** `cleanup_all_sessions`: the number of sessions there were; none remain. */
    method CleanupAllSessions() returns (count: nat)
      modifies this
      ensures count == |old(sessions)|
      ensures sessions == map[]
    {
      count := |sessions|;
      sessions := map[];
    }
  }
}
