/**
 Endpoint numbers of bridged things (bridge_storage.cpp). A commit succeeds, or fails and poisons the store; a
 failed one may or may not have reached the disk, which shows when the store is opened again.
 */
module EndpointStore {
  import opened Bytes

  const FIRST_ENDPOINT: nat := 3
  const LAST_ENDPOINT: nat := 65534
  const LIVE_MAX: nat := 16

  datatype Kind = OnOffLight | TemperatureSensor | OtherKind

  datatype Endpoint = Endpoint(number: nat, kind: Kind)

  type Table = map<string, Endpoint>

  datatype Status = Ok | StorageFailed | InvalidArgument | PoolFull | NotFound

  datatype Commit = Committed | Lost | Hidden

  /** The table in memory and on disk, and every number ever granted with the thing it was granted to. */
  datatype Store = Store(
    endpoints: Table, next: nat, poisoned: bool, diskEndpoints: Table, diskNext: nat, granted: seq<(nat, string)>)

  const EMPTY: Store := Store(map[], 3, false, map[], 3, [])

  predicate ValidThing(thing: string) { thing != "" && |thing| <= 256 }

  predicate ValidKind(kind: Kind) { kind != OtherKind }

  /** A lost commit leaves the disk as it was, a hidden one changes it; both poison the store. */
  function Write(s: Store, endpoints: Table, next: nat, granted: seq<(nat, string)>, commit: Commit): Store {
    match commit
    case Committed => Store(endpoints, next, false, endpoints, next, granted)
    case Lost => s.(poisoned := true)
    case Hidden => s.(poisoned := true, diskEndpoints := endpoints, diskNext := next, granted := granted)
  }

  function Allocate(s: Store, thing: string, kind: Kind, commit: Commit): (Store, Status, Option<Endpoint>) {
    if s.poisoned then (s, StorageFailed, None)
    else if !ValidThing(thing) || !ValidKind(kind) then (s, InvalidArgument, None)
    else if thing in s.endpoints then
      if s.endpoints[thing].kind != kind then (s, InvalidArgument, None) else (s, Ok, Some(s.endpoints[thing]))
    else if |s.endpoints| >= LIVE_MAX || s.next > LAST_ENDPOINT then (s, PoolFull, None)
    else
      var e := Endpoint(s.next, kind);
      var v := Write(s, s.endpoints[thing := e], s.next + 1, s.granted + [(s.next, thing)], commit);
      if commit.Committed? then (v, Ok, Some(e)) else (v, StorageFailed, None)
  }

  function Remove(s: Store, thing: string, commit: Commit): (Store, Status) {
    if s.poisoned then (s, StorageFailed)
    else if !ValidThing(thing) then (s, InvalidArgument)
    else if thing !in s.endpoints then (s, NotFound)
    else (Write(s, s.endpoints - {thing}, s.next, s.granted, commit), if commit.Committed? then Ok else StorageFailed)
  }

  predicate Live(endpoints: Table, number: nat) {
    exists thing :: thing in endpoints && endpoints[thing].number == number
  }

  function Retired(s: Store, number: nat): (Status, bool) {
    if s.poisoned then (StorageFailed, false)
    else if number < FIRST_ENDPOINT || number > LAST_ENDPOINT then (InvalidArgument, false)
    else (Ok, number < s.next && !Live(s.endpoints, number))
  }

  function Reopen(s: Store): Store { s.(endpoints := s.diskEndpoints, next := s.diskNext, poisoned := false) }

  datatype Event =
    | Allocating(thing: string, kind: Kind, commit: Commit)
    | Removing(thing: string, commit: Commit)
    | Reopening

  function Apply(s: Store, e: Event): Store {
    match e
    case Allocating(thing, kind, commit) => Allocate(s, thing, kind, commit).0
    case Removing(thing, commit) => Remove(s, thing, commit).0
    case Reopening => Reopen(s)
  }

  function Run(events: seq<Event>): Store {
    if events == [] then EMPTY else Apply(Run(events[..|events| - 1]), events[|events| - 1])
  }

  // ----- the invariant

  /** Live numbers are distinct, below the next one, and were granted to the thing that holds them. */
  ghost predicate TableInv(endpoints: Table, next: nat, granted: seq<(nat, string)>) {
    && |endpoints| <= LIVE_MAX
    && (forall t :: t in endpoints ==>
        FIRST_ENDPOINT <= endpoints[t].number < next && (endpoints[t].number, t) in granted)
    && (forall t, u :: t in endpoints && u in endpoints && t != u ==> endpoints[t].number != endpoints[u].number)
  }

  /** The numbers granted so far are 3, 4, … in order. */
  ghost predicate GrantInv(granted: seq<(nat, string)>, next: nat) {
    next == 3 + |granted| && next <= LAST_ENDPOINT + 1 && forall i :: 0 <= i < |granted| ==> granted[i].0 == 3 + i
  }

  ghost predicate Inv(s: Store) {
    && GrantInv(s.granted, s.diskNext)
    && TableInv(s.diskEndpoints, s.diskNext, s.granted)
    && (!s.poisoned ==> s.endpoints == s.diskEndpoints && s.next == s.diskNext)
  }

  lemma AllocateKeeps(s: Store, thing: string, kind: Kind, commit: Commit)
    requires Inv(s)
    ensures Inv(Allocate(s, thing, kind, commit).0)
  {
    hide TableInv, GrantInv, ValidThing;
    if !s.poisoned && thing !in s.endpoints && |s.endpoints| < LIVE_MAX && s.next <= LAST_ENDPOINT {
      TableOneMore(s.endpoints, s.next, s.granted, thing, kind);
      GrantOneMore(s.granted, s.next, thing);
    }
  }

  lemma TableOneMore(endpoints: Table, next: nat, granted: seq<(nat, string)>, thing: string, kind: Kind)
    requires TableInv(endpoints, next, granted) && thing !in endpoints && |endpoints| < LIVE_MAX
    requires GrantInv(granted, next)
    ensures TableInv(endpoints[thing := Endpoint(next, kind)], next + 1, granted + [(next, thing)])
  {
    var more, table := granted + [(next, thing)], endpoints[thing := Endpoint(next, kind)];
    assert more[|granted|] == (next, thing);
    forall t | t in table
      ensures FIRST_ENDPOINT <= table[t].number < next + 1 && (table[t].number, t) in more
    {
      if t != thing { assert (endpoints[t].number, t) in granted; }
    }
  }

  lemma GrantOneMore(granted: seq<(nat, string)>, next: nat, thing: string)
    requires GrantInv(granted, next) && next <= LAST_ENDPOINT
    ensures GrantInv(granted + [(next, thing)], next + 1)
  {
  }

  lemma RemoveKeeps(s: Store, thing: string, commit: Commit)
    requires Inv(s)
    ensures Inv(Remove(s, thing, commit).0)
  {
    if thing in s.endpoints { FewerThings(s.endpoints, thing); }
  }

  lemma FewerThings(endpoints: Table, thing: string)
    requires thing in endpoints
    ensures |endpoints - {thing}| <= |endpoints|
  {
    var less := endpoints - {thing};
    assert less.Keys == endpoints.Keys - {thing};
    assert |less| == |less.Keys| && |endpoints| == |endpoints.Keys|;
  }

  lemma {:induction false} RunKeeps(events: seq<Event>)
    ensures Inv(Run(events))
  {
    hide GrantInv, TableInv;
    if events == [] {
      EmptyInv();
    } else {
      RunKeeps(events[..|events| - 1]);
      var s := Run(events[..|events| - 1]);
      match events[|events| - 1]
      case Allocating(thing, kind, commit) => AllocateKeeps(s, thing, kind, commit);
      case Removing(thing, commit) => RemoveKeeps(s, thing, commit);
      case Reopening =>
    }
  }

  lemma EmptyInv()
    ensures Inv(EMPTY)
  {
  }

  // ----- what that means

  /** Over every history of allocations, removals, failed commits and reopenings, a number is granted once at most. */
  lemma NumbersAreGrantedOnce(events: seq<Event>, i: nat, j: nat)
    requires i < |Run(events).granted| && j < |Run(events).granted|
    requires Run(events).granted[i].0 == Run(events).granted[j].0
    ensures i == j
  {
    RunKeeps(events);
  }

  /** Live numbers are distinct, were granted to the thing that holds them, and lie below the next number. */
  lemma LiveNumbersAreDistinct(events: seq<Event>, t: string, u: string)
    requires !Run(events).poisoned && t in Run(events).endpoints && u in Run(events).endpoints
    ensures var s := Run(events);
            && FIRST_ENDPOINT <= s.endpoints[t].number < s.next
            && (s.endpoints[t].number, t) in s.granted
            && (t != u ==> s.endpoints[t].number != s.endpoints[u].number)
  {
    RunKeeps(events);
    hide Run;
  }

  /** A number counts as retired exactly if it was granted and nothing holds it now. */
  lemma RetiredExactlyWhenGrantedAndNotLive(events: seq<Event>, number: nat)
    requires !Run(events).poisoned && FIRST_ENDPOINT <= number <= LAST_ENDPOINT
    ensures var s := Run(events);
            Retired(s, number).1 <==>
              (exists i :: 0 <= i < |s.granted| && s.granted[i].0 == number) && !Live(s.endpoints, number)
  {
    RunKeeps(events);
    hide Run, Live;
    var s := Run(events);
    if number < s.next { assert s.granted[number - 3].0 == number; }
  }

  /** An allocation that succeeds returns the thing's own number; a new one is above every number granted before. */
  lemma AllocationsAreNewOrTheirOwn(events: seq<Event>, thing: string, kind: Kind, commit: Commit)
    ensures var s := Run(events);
            var (v, status, endpoint) := Allocate(s, thing, kind, commit);
            status == Ok ==>
              && endpoint.Some? && thing in v.endpoints && v.endpoints[thing] == endpoint.value
              && endpoint.value.kind == kind
              && (if thing in s.endpoints then v == s
                  else v.granted == s.granted + [(endpoint.value.number, thing)]
                       && forall i :: 0 <= i < |s.granted| ==> s.granted[i].0 < endpoint.value.number)
  {
    RunKeeps(events);
    hide Run, TableInv;
  }

  class Numbers {
    var endpoints: Table
    var next: nat
    var poisoned: bool
    ghost var diskEndpoints: Table
    ghost var diskNext: nat
    ghost var granted: seq<(nat, string)>

    ghost function View(): Store
      reads this
    {
      Store(endpoints, next, poisoned, diskEndpoints, diskNext, granted)
    }

    constructor ()
      ensures View() == EMPTY
    {
      endpoints, next, poisoned := map[], 3, false;
      diskEndpoints, diskNext, granted := map[], 3, [];
    }

    /** The loop over all live endpoints. */
    method IsRetired(number: nat) returns (status: Status, retired: bool)
      ensures (status, retired) == Retired(View(), number)
    {
      if poisoned { return StorageFailed, false; }
      if number < FIRST_ENDPOINT || number > LAST_ENDPOINT { return InvalidArgument, false; }
      retired := number < next;
      var left := endpoints.Keys;
      while left != {}
        invariant left <= endpoints.Keys
        invariant retired == (number < next && forall t :: t in endpoints && t !in left ==>
                              endpoints[t].number != number)
        decreases left
      {
        var thing :| thing in left;
        if endpoints[thing].number == number { retired := false; }
        left := left - {thing};
      }
      return Ok, retired;
    }

    method Add(thing: string, kind: Kind, commit: Commit) returns (status: Status, endpoint: Option<Endpoint>)
      modifies this
      ensures (View(), status, endpoint) == Allocate(old(View()), thing, kind, commit)
    {
      if poisoned { return StorageFailed, None; }
      if !ValidThing(thing) || !ValidKind(kind) { return InvalidArgument, None; }
      if thing in endpoints {
        if endpoints[thing].kind != kind { return InvalidArgument, None; }
        return Ok, Some(endpoints[thing]);
      }
      if |endpoints| >= LIVE_MAX || next > LAST_ENDPOINT { return PoolFull, None; }
      var created := Endpoint(next, kind);
      var table := endpoints[thing := created];
      ghost var grants := granted + [(next, thing)];
      Persist(table, next + 1, grants, commit);
      if !commit.Committed? { return StorageFailed, None; }
      return Ok, Some(created);
    }

    method Drop(thing: string, commit: Commit) returns (status: Status)
      modifies this
      ensures (View(), status) == Remove(old(View()), thing, commit)
    {
      if poisoned { return StorageFailed; }
      if !ValidThing(thing) { return InvalidArgument; }
      if thing !in endpoints { return NotFound; }
      Persist(endpoints - {thing}, next, granted, commit);
      return if commit.Committed? then Ok else StorageFailed;
    }

    /** The commit, and memory following it only if it succeeded. */
    method Persist(table: Table, following: nat, ghost grants: seq<(nat, string)>, commit: Commit)
      requires !poisoned
      modifies this
      ensures View() == Write(old(View()), table, following, grants, commit)
    {
      if !commit.Lost? { diskEndpoints, diskNext, granted := table, following, grants; }
      if commit.Committed? { endpoints, next := table, following; } else { poisoned := true; }
    }
  }
}
