/**
 * The client's family context: `loadFamilyData` answers from its cache
 * while the cache is fresh, otherwise fetches the caller's family and its
 * members and records the time of the last complete load.
 */
module FamilyContext {
  import opened Wrappers

  datatype Family = Family(id: string, name: string)
  datatype Member = Member(id: string, name: string, role: string)

  /**
   * A fetch that answered with a 2xx status and a JSON body, one that answered
   * with another status, or one whose promise rejected (a network failure, or
   * no active session). `reason` is the text the catch block records for it:
   * the error's message, or the default text when what was thrown is not an `Error`.
   */
  datatype Response<T> = Okay(data: T) | NotOk | Rejected(reason: string)

  const CacheDuration := 5 * 60 * 1000

  const FamilyLoadError: string := "Failed to load family data"
  const MembersLoadError: string := "Failed to load family members"

  /** The provider's state; `fetches` counts the pairs of requests sent. */
  datatype State = State(family: Option<Family>, members: seq<Member>, loading: bool,
                         error: Option<string>, lastUpdated: int, fetches: nat)

  const Initial := State(None, [], true, None, 0, 0)

  /** `loading` is never left set once a load has completed. */
  ghost predicate Valid(s: State) {
    s.lastUpdated != 0 ==> !s.loading
  }

  /** The cached data is reused, and nothing is fetched, exactly when this holds. */
  predicate UseCache(s: State, force: bool, now: int)
    ensures force || s.lastUpdated == 0 ==> !UseCache(s, force, now)
    ensures UseCache(s, force, now) ==> now < s.lastUpdated + CacheDuration && s.family.Some? && s.members != []
  {
    !force && s.lastUpdated != 0 && now - s.lastUpdated < CacheDuration && s.family.Some? && |s.members| > 0
  }

  /**
   * The rejection `Promise.all` reports when one of the two requests rejects:
   * the families request's when both do.
   */
  function Rejection<A, B>(families: Response<A>, members: Response<B>): (r: Option<string>)
    ensures r.Some? <==> families.Rejected? || members.Rejected?
    ensures families.Rejected? ==> r == Some(families.reason)
    ensures !families.Rejected? && members.Rejected? ==> r == Some(members.reason)
  {
    if families.Rejected? then Some(families.reason)
    else if members.Rejected? then Some(members.reason)
    else None
  }

  /**
   * `loadFamilyData(force)`: the state after the call, given whether a user is
   * signed in, the clock, and the answers of `/api/families` (a list of
   * `{family, role}` of which only the families matter here) and `/api/family-members`.
   */
  function Load(s: State, hasUser: bool, force: bool, now: int,
                families: Response<seq<Family>>, members: Response<seq<Member>>): (t: State)
    ensures !hasUser ==> t == s.(loading := false)
    ensures hasUser && UseCache(s, force, now) ==> t == s
    ensures hasUser && !UseCache(s, force, now) ==> t.fetches == s.fetches + 1 && !t.loading
    ensures t.fetches == s.fetches || t.fetches == s.fetches + 1
    ensures t.lastUpdated == (if hasUser && !UseCache(s, force, now) && families.Okay? && members.Okay? then now else s.lastUpdated)
    ensures t.family == (if hasUser && !UseCache(s, force, now) && families.Okay? && !members.Rejected?
                            && |families.data| > 0
                         then Some(families.data[0]) else s.family)
    ensures t.members == (if hasUser && !UseCache(s, force, now) && families.Okay? && members.Okay?
                          then members.data else s.members)
    ensures hasUser && !UseCache(s, force, now) ==>
              t.error == (if Rejection(families, members).Some? then Rejection(families, members)
                          else if families.NotOk? then Some(FamilyLoadError)
                          else if members.NotOk? then Some(MembersLoadError) else None)
  {
    if !hasUser then s.(loading := false)
    else if UseCache(s, force, now) then s
    else
      var sent := s.(loading := true, error := None, fetches := s.fetches + 1);
      var rejection := Rejection(families, members);
      if rejection.Some? then sent.(error := rejection, loading := false)
      else if families.NotOk? then sent.(error := Some(FamilyLoadError), loading := false)
      else
        var withFamily := if |families.data| > 0 then sent.(family := Some(families.data[0])) else sent;
        if members.NotOk? then withFamily.(error := Some(MembersLoadError), loading := false)
        else withFamily.(members := members.data, lastUpdated := now, loading := false)
  }

  /** Every completed load leaves `loading` false, whichever path it took. */
  lemma LoadEndsLoading(s: State, hasUser: bool, force: bool, now: int,
                        families: Response<seq<Family>>, members: Response<seq<Member>>)
    requires Valid(s)
    ensures Valid(Load(s, hasUser, force, now, families, members))
    ensures !Load(s, hasUser, force, now, families, members).loading
  {
  }

  /**
   * When either request rejects, the await throws before any field is set:
   * the family, the members and the time of the last load stay, and the error
   * records the rejection.
   */
  lemma RejectedLoadKeepsData(s: State, hasUser: bool, force: bool, now: int,
                              families: Response<seq<Family>>, members: Response<seq<Member>>)
    requires hasUser && !UseCache(s, force, now)
    requires families.Rejected? || members.Rejected?
    ensures var t := Load(s, hasUser, force, now, families, members);
            && t.family == s.family && t.members == s.members && t.lastUpdated == s.lastUpdated
            && t.error.Some? && !t.loading
  {
  }

  /** `refreshFamily` always fetches when a user is signed in, however fresh the cache. */
  lemma RefreshAlwaysFetches(s: State, now: int, families: Response<seq<Family>>, members: Response<seq<Member>>)
    ensures Load(s, true, true, now, families, members).fetches == s.fetches + 1
  {
  }

  /** A successful load followed by a non-forced load within five minutes fetches nothing, provided it found a family and members. */
  lemma FreshLoadIsCached(s: State, now: int, later: int, families: seq<Family>, members: seq<Member>,
                          families': Response<seq<Family>>, members': Response<seq<Member>>)
    requires now != 0 && now <= later < now + CacheDuration
    requires |families| > 0 && |members| > 0
    ensures var t := Load(s, true, true, now, Okay(families), Okay(members));
            Load(t, true, false, later, families', members') == t
  {
  }

  class FamilyProvider {
    var family: Option<Family>
    var members: seq<Member>
    var loading: bool
    var error: Option<string>
    var lastUpdated: int
    var fetches: nat

    function Current(): State
      reads this
    {
      State(family, members, loading, error, lastUpdated, fetches)
    }

    constructor ()
      ensures Current() == Initial && Valid(Current())
    {
      family, members, loading, error, lastUpdated, fetches := None, [], true, None, 0, 0;
    }

    method LoadFamilyData(hasUser: bool, force: bool, now: int,
                          familiesResponse: Response<seq<Family>>, membersResponse: Response<seq<Member>>)
      modifies this
      ensures Current() == Load(old(Current()), hasUser, force, now, familiesResponse, membersResponse)
    {
      if !hasUser {
        loading := false;
        return;
      }
      if !force && lastUpdated != 0 && now - lastUpdated < CacheDuration && family.Some? && |members| > 0 {
        return;
      }
      loading := true;
      error := None;
      fetches := fetches + 1;
      var rejection := Rejection(familiesResponse, membersResponse);
      if rejection.Some? {
        error := rejection;
        loading := false;
        return;
      }
      if familiesResponse.NotOk? {
        error := Some(FamilyLoadError);
        loading := false;
        return;
      }
      if |familiesResponse.data| > 0 {
        family := Some(familiesResponse.data[0]);
      }
      if membersResponse.NotOk? {
        error := Some(MembersLoadError);
        loading := false;
        return;
      }
      members := membersResponse.data;
      lastUpdated := now;
      loading := false;
    }

    method RefreshFamily(hasUser: bool, now: int,
                         familiesResponse: Response<seq<Family>>, membersResponse: Response<seq<Member>>)
      modifies this
      ensures Current() == Load(old(Current()), hasUser, true, now, familiesResponse, membersResponse)
      ensures hasUser ==> fetches == old(fetches) + 1
      ensures hasUser && (familiesResponse.Rejected? || membersResponse.Rejected?) ==>
                family == old(family) && members == old(members) && error.Some? && !loading
    {
      LoadFamilyData(hasUser, true, now, familiesResponse, membersResponse);
    }
  }
}
