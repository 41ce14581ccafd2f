/**
 * The calendar integration: an access token cached in a module-level
 * variable and refreshed from the connector endpoint, and the mapping of the
 * provider's events for the next 30 days into local event records.
 */
module GoogleCalendar {
  import opened Wrappers
  import opened Js

  /** The connector item's settings; timestamps are milliseconds since the epoch. */
  datatype Connection = Connection(expiresAt: Option<int>, accessToken: Option<string>, oauthAccessToken: Option<string>)

  datatype CalendarError = ReplTokenMissing | ConnectorNotConfigured | NotConnected | NoPrimaryCalendar

  datatype Outcome<T> = Success(value: T) | Failure(error: CalendarError)

  /** `settings.access_token || settings.oauth.credentials.access_token`. */
  function TokenOf(c: Connection): Option<string> {
    Or(c.accessToken, c.oauthAccessToken)
  }

  /** The cache is used when it holds an expiry in the future and a token. */
  predicate CacheUsable(cache: Option<Connection>, now: int) {
    cache.Some? && cache.value.expiresAt.Some? && cache.value.expiresAt.value > now
    && Truthy(TokenOf(cache.value))
  }

  /** The `X_REPLIT_TOKEN` header value built from the environment, if either variable is set. */
  function ReplToken(replIdentity: Option<string>, webReplRenewal: Option<string>): Option<string> {
    if Truthy(replIdentity) then Some("repl " + replIdentity.value)
    else if Truthy(webReplRenewal) then Some("depl " + webReplRenewal.value)
    else None
  }

  /**
   * `getAccessToken`: the new value of the cache and the result. `fetched` is
   * the first item the connector endpoint returns (`None` when there is none).
   */
  function AccessToken(cache: Option<Connection>, now: int, replIdentity: Option<string>,
                       webReplRenewal: Option<string>, fetched: Option<Connection>): (out: (Option<Connection>, Outcome<string>))
    ensures CacheUsable(cache, now) ==> out == (cache, Success(TokenOf(cache.value).value))
    ensures !CacheUsable(cache, now) && ReplToken(replIdentity, webReplRenewal).None?
            ==> out == (cache, Failure(ReplTokenMissing))
    ensures !CacheUsable(cache, now) && ReplToken(replIdentity, webReplRenewal).Some? ==> out.0 == fetched
    ensures out.1.Success? ==> out.1.value != ""
    ensures out.1.Success? && !CacheUsable(cache, now) ==> fetched.Some? && TokenOf(fetched.value) == Some(out.1.value)
    ensures !CacheUsable(cache, now) && ReplToken(replIdentity, webReplRenewal).Some? ==>
              out.1 == if fetched.None? then Failure(ConnectorNotConfigured)
                       else if !Truthy(TokenOf(fetched.value)) then Failure(NotConnected)
                       else Success(TokenOf(fetched.value).value)
  {
    if CacheUsable(cache, now) then (cache, Success(TokenOf(cache.value).value))
    else if ReplToken(replIdentity, webReplRenewal).None? then (cache, Failure(ReplTokenMissing))
    else if fetched.None? then (fetched, Failure(ConnectorNotConfigured))
    else if !Truthy(TokenOf(fetched.value)) then (fetched, Failure(NotConnected))
    else (fetched, Success(TokenOf(fetched.value).value))
  }

  /** After a successful refresh the next call within the token's lifetime is answered from the cache. */
  lemma RefreshThenCached(cache: Option<Connection>, now: int, later: int, replIdentity: Option<string>,
                          webReplRenewal: Option<string>, fetched: Option<Connection>, fetched': Option<Connection>)
    requires AccessToken(cache, now, replIdentity, webReplRenewal, fetched).1.Success?
    requires fetched.Some? && fetched.value.expiresAt.Some? && later < fetched.value.expiresAt.value
    requires !CacheUsable(cache, now)
    ensures var (c, r) := AccessToken(cache, now, replIdentity, webReplRenewal, fetched);
            AccessToken(c, later, replIdentity, webReplRenewal, fetched') == (c, r)
  {
  }

  /** The module-level `connectionSettings` variable. */
  class Connector {
    var cache: Option<Connection>

    constructor ()
      ensures cache == None
    {
      cache := None;
    }

    method GetAccessToken(now: int, replIdentity: Option<string>, webReplRenewal: Option<string>,
                          fetched: Option<Connection>) returns (r: Outcome<string>)
      modifies this
      ensures (cache, r) == AccessToken(old(cache), now, replIdentity, webReplRenewal, fetched)
    {
      if cache.Some? && cache.value.expiresAt.Some? && cache.value.expiresAt.value > now {
        var cachedToken := TokenOf(cache.value);
        if Truthy(cachedToken) {
          return Success(cachedToken.value);
        }
      }
      var replToken := ReplToken(replIdentity, webReplRenewal);
      if replToken.None? {
        return Failure(ReplTokenMissing);
      }
      cache := fetched;
      if cache.None? {
        return Failure(ConnectorNotConfigured);
      }
      var accessToken := TokenOf(cache.value);
      if !Truthy(accessToken) {
        return Failure(NotConnected);
      }
      return Success(accessToken.value);
    }

    /**
     * `syncCalendarEvents`: two token acquisitions (one for the client, one
     * inside `getCalendarEmail`), the primary-calendar check, then the events
     * of the window `[now, now + 30 days]` mapped to local records.
     * `fetched` and `fetched2` are what the connector endpoint returns if
     * the first and the second acquisition go to it.
     */
    method SyncCalendarEvents(familyId: string, now: int, replIdentity: Option<string>, webReplRenewal: Option<string>,
                              fetched: Option<Connection>, fetched2: Option<Connection>, calendars: seq<CalendarEntry>,
                              listEvents: (int, int) -> seq<ProviderEvent>) returns (r: Outcome<seq<EventRecord>>)
      modifies this
      ensures r.Success? ==> r.value == MapEvents(listEvents(now, now + SyncWindow), familyId)
      ensures r.Success? ==> PrimaryCalendarId(calendars).Some?
      ensures PrimaryCalendarId(calendars).None? ==> r.Failure?
      ensures var (c1, t1) := AccessToken(old(cache), now, replIdentity, webReplRenewal, fetched);
              var (c2, t2) := AccessToken(c1, now, replIdentity, webReplRenewal, fetched2);
              && cache == (if t1.Failure? then c1 else c2)
              && (r.Success? <==> t1.Success? && t2.Success? && PrimaryCalendarId(calendars).Some?)
    {
      var client := GetAccessToken(now, replIdentity, webReplRenewal, fetched);
      if client.Failure? {
        return Failure(client.error);
      }
      var again := GetAccessToken(now, replIdentity, webReplRenewal, fetched2);
      if again.Failure? {
        return Failure(again.error);
      }
      var email := PrimaryCalendarId(calendars);
      if email.None? {
        return Failure(NoPrimaryCalendar);
      }
      var events := listEvents(now, now + SyncWindow);
      return Success(MapEvents(events, familyId));
    }
  }

  const Day := 24 * 60 * 60 * 1000
  const SyncWindow := 30 * Day

  /** An entry of the user's calendar list. */
  datatype CalendarEntry = CalendarEntry(id: Option<string>, primary: bool)

  /** `items.find(cal => cal.primary)?.id || null`. */
  function PrimaryCalendarId(calendars: seq<CalendarEntry>): (r: Option<string>)
    ensures r.Some? ==> r.value != "" && exists i :: 0 <= i < |calendars| && calendars[i].primary && calendars[i].id == r
    ensures (forall i :: 0 <= i < |calendars| ==> !calendars[i].primary) ==> r.None?
    ensures forall i :: FirstPrimary(calendars, i) ==> r == (if Truthy(calendars[i].id) then calendars[i].id else None)
  {
    if calendars == [] then None
    else if calendars[0].primary then (if Truthy(calendars[0].id) then calendars[0].id else None)
    else
      var r := PrimaryCalendarId(calendars[1..]);
      assert r.Some? ==> exists i :: 0 <= i < |calendars| && calendars[i].primary && calendars[i].id == r by {
        if r.Some? {
          var i :| 0 <= i < |calendars[1..]| && calendars[1..][i].primary && calendars[1..][i].id == r;
          assert calendars[i + 1] == calendars[1..][i];
        }
      }
      assert forall i :: FirstPrimary(calendars, i) ==> i > 0 && FirstPrimary(calendars[1..], i - 1) by {
        forall i | FirstPrimary(calendars, i) ensures i > 0 && FirstPrimary(calendars[1..], i - 1) {
          forall j | 0 <= j < i - 1 ensures !calendars[1..][j].primary {
            assert calendars[1..][j] == calendars[j + 1];
          }
        }
      }
      r
  }

  /** Entry `i` is the first one marked primary: what `find` returns. */
  predicate FirstPrimary(calendars: seq<CalendarEntry>, i: int) {
    0 <= i < |calendars| && calendars[i].primary && forall j :: 0 <= j < i ==> !calendars[j].primary
  }

  /** A start or end of a provider event: a timed `dateTime` or an all-day `date`. */
  datatype EventTime = EventTime(dateTime: Option<string>, date: Option<string>)

  datatype ProviderEvent = ProviderEvent(id: Option<string>, summary: Option<string>, description: Option<string>,
                                         location: Option<string>, start: Option<EventTime>, end: Option<EventTime>)

  /** `new Date(text)`: the instant the text denotes; `new Date('')` is an invalid date. */
  datatype Instant = Parsed(text: string) | InvalidDate

  datatype EventRecord = EventRecord(googleEventId: Option<string>, title: string, description: Option<string>,
                                     location: Option<string>, startTime: Instant, endTime: Option<Instant>,
                                     allDay: bool, familyId: string)

  const UntitledEvent: string := "Untitled Event"

  function DateTimeOf(t: Option<EventTime>): Option<string> {
    if t.Some? then t.value.dateTime else None
  }

  function DateOf(t: Option<EventTime>): Option<string> {
    if t.Some? then t.value.date else None
  }

  /** `text || null` */
  function NullIfEmpty(v: Option<string>): (r: Option<string>)
    ensures r.Some? <==> Truthy(v)
    ensures r.Some? ==> r == v
  {
    if Truthy(v) then v else None
  }

  /** The record one provider event becomes. */
  function MapEvent(e: ProviderEvent, familyId: string): (r: EventRecord)
    ensures r.googleEventId == e.id && r.familyId == familyId
    ensures r.title == (if Truthy(e.summary) then e.summary.value else UntitledEvent) && r.title != ""
    ensures r.description.Some? <==> Truthy(e.description)
    ensures r.location.Some? <==> Truthy(e.location)
    ensures Truthy(e.description) ==> r.description == e.description
    ensures Truthy(e.location) ==> r.location == e.location
    ensures r.allDay <==> !Truthy(DateTimeOf(e.start))
    ensures !r.allDay ==> r.startTime == Parsed(DateTimeOf(e.start).value)
    ensures r.allDay ==> r.startTime == if Truthy(DateOf(e.start)) then Parsed(DateOf(e.start).value) else InvalidDate
    ensures Truthy(DateTimeOf(e.end)) ==> r.endTime == Some(Parsed(DateTimeOf(e.end).value))
    ensures !Truthy(DateTimeOf(e.end)) && Truthy(DateOf(e.end)) ==> r.endTime == Some(Parsed(DateOf(e.end).value))
    ensures r.endTime.None? <==> !Truthy(DateTimeOf(e.end)) && !Truthy(DateOf(e.end))
  {
    var startDateTime := DateTimeOf(e.start);
    var startDate := DateOf(e.start);
    var endDateTime := DateTimeOf(e.end);
    var endDate := DateOf(e.end);
    EventRecord(
      e.id,
      OrElse(e.summary, UntitledEvent),
      NullIfEmpty(e.description),
      NullIfEmpty(e.location),
      if Truthy(startDateTime) then Parsed(startDateTime.value)
      else if Truthy(startDate) then Parsed(startDate.value) else InvalidDate,
      if Truthy(endDateTime) then Some(Parsed(endDateTime.value))
      else if Truthy(endDate) then Some(Parsed(endDate.value)) else None,
      !Truthy(startDateTime),
      familyId)
  }

  /** `events.map(...)`: one record per provider event, in the provider's order. */
  function MapEvents(es: seq<ProviderEvent>, familyId: string): (r: seq<EventRecord>)
    ensures |r| == |es|
    ensures forall i :: 0 <= i < |es| ==> r[i] == MapEvent(es[i], familyId)
    ensures forall i :: 0 <= i < |r| ==> r[i].familyId == familyId && r[i].googleEventId == es[i].id
  {
    if es == [] then [] else [MapEvent(es[0], familyId)] + MapEvents(es[1..], familyId)
  }
}
