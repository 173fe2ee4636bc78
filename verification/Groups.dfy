/** Connection bookkeeping of the subscribe service: the group list, a Go slice whose backing
    array is shifted in place, the once-only close of each node, and the live counter. */
module Groups {

  type id = nat

  /** `g` is the first `len` slots of `backing`; slots beyond keep whatever they held. */
  datatype State = State(
    backing: seq<id>,
    len: nat,
    online: set<id>,
    connects: int,         // Service.connects
    fired: map<id, nat>,   // history: how often each node's close callbacks ran
    accepting: int)        // accepts that have joined the group but are not counted yet

  const EMPTY := State([], 0, {}, 0, map[], 0)

  ghost predicate Valid(s: State) {
    && s.len <= |s.backing|
    && (forall i, j :: 0 <= i < j < s.len ==> s.backing[i] != s.backing[j])
    && (forall i :: 0 <= i < s.len ==> s.backing[i] in s.online)
    && s.online <= s.fired.Keys
    && (forall n :: n in s.fired ==> s.fired[n] == if n in s.online then 0 else 1)
    && s.connects + s.accepting == |s.online|
  }

  function Members(s: State): (g: seq<id>)
    requires s.len <= |s.backing|
  {
    s.backing[..s.len]
  }

  /** `append(g[:i], g[i+1:]...)` on the shared array: the tail moves left, the last slot stays. */
  function ShiftLeft(a: seq<id>, i: nat, len: nat): (r: seq<id>)
    requires i < len <= |a|
    ensures |r| == |a|
    ensures forall x :: 0 <= x < |a| ==> r[x] == if i <= x < len - 1 then a[x + 1] else a[x]
  {
    a[..i] + a[i + 1..len] + a[len - 1..]
  }

  function IndexOf(a: seq<id>, n: id, len: nat): (i: nat)
    requires len <= |a|
    ensures i <= len && (i < len ==> a[i] == n) && forall j :: 0 <= j < i ==> a[j] != n
  {
    if len == 0 then 0
    else var i := IndexOf(a, n, len - 1); if i < len - 1 || a[len - 1] == n then i else len
  }

  /** `remove`: drop the node from the list if it is there; run the counter callback anyway. */
  function Remove(s: State, n: id): (r: State)
    requires s.len <= |s.backing|
  {
    var i := IndexOf(s.backing, n, s.len);
    var s' := if i < s.len then s.(backing := ShiftLeft(s.backing, i, s.len), len := s.len - 1) else s;
    s'.(connects := s.connects - 1)
  }

  /** `tcpClientNode.close`: a node that is already offline is left alone. */
  function Close(s: State, n: id): (r: State)
    requires s.len <= |s.backing|
    ensures r.len <= |r.backing| == |s.backing| && r.len <= s.len
    ensures r.online == s.online - {n}
  {
    if n !in s.online then s
    else Remove(s, n).(online := s.online - {n}, fired := s.fired[n := Fired(s, n) + 1])
  }

  function Fired(s: State, n: id): (c: nat) {
    if n in s.fired then s.fired[n] else 0
  }

  /** The first onConnect callback: the node joins the group. A full slice is copied to a
      larger array, with as many spare slots as the runtime likes. */
  function Join(s: State, n: id, spare: nat): (r: State)
    requires s.len <= |s.backing|
  {
    s.(backing := if s.len < |s.backing| then s.backing[s.len := n] else s.backing + [n] + seq(spare, _ => 0),
       len := s.len + 1, online := s.online + {n}, fired := s.fired[n := 0], accepting := s.accepting + 1)
  }

  /** The second one: the connection is counted. */
  function Counted(s: State): (r: State) {
    s.(connects := s.connects + 1, accepting := s.accepting - 1)
  }

  /** `for _, node := range g { node.close() }`: the range keeps the array and the length it
      started with, and reads each slot when it gets there. */
  function Range(s: State, i: nat, len: nat): (r: State)
    requires s.len <= |s.backing| && i <= len <= |s.backing|
    ensures r.len <= |r.backing| == |s.backing|
    decreases len - i
  {
    if i == len then s else Range(Close(s, s.backing[i]), i + 1, len)
  }

  /** `groups.close`. */
  function CloseAll(s: State): (r: State)
    requires s.len <= |s.backing|
    ensures r.len <= |r.backing|
  {
    Range(s, 0, s.len).(backing := [], len := 0)
  }

  // ---- what every step keeps ----

  lemma RemoveKeepsOrder(s: State, n: id)
    requires Valid(s)
    ensures var r := Remove(s, n);
            && (forall i, j :: 0 <= i < j < r.len ==> r.backing[i] != r.backing[j])
            && (forall i :: 0 <= i < r.len ==> r.backing[i] in s.online && r.backing[i] != n)
  {
  }

  lemma CloseKeeps(s: State, n: id)
    requires Valid(s)
    ensures Valid(Close(s, n))
  {
    if n in s.online { RemoveKeepsOrder(s, n); }
  }

  lemma {:induction false} RangeKeeps(s: State, i: nat, len: nat)
    requires Valid(s) && i <= len <= |s.backing|
    ensures Valid(Range(s, i, len))
    decreases len - i
  {
    if i < len {
      CloseKeeps(s, s.backing[i]);
      RangeKeeps(Close(s, s.backing[i]), i + 1, len);
    }
  }

  datatype Step =
    | Accept(n: id, spare: nat) // first half of an accept
    | Count         // second half
    | Gone(n: id)   // peer disconnect, ping, bad flag or write failure: all end in close
    | Shutdown      // groups.close

  predicate Enabled(s: State, step: Step) {
    match step
    case Accept(n, _) => n !in s.fired // a new connection is a new node
    case Gone(n) => n in s.fired
    case Count => s.accepting > 0
    case Shutdown => true
  }

  function Next(s: State, step: Step): (r: State)
    requires s.len <= |s.backing|
    ensures r.len <= |r.backing|
  {
    match step
    case Accept(n, spare) => Join(s, n, spare)
    case Count => Counted(s)
    case Gone(n) => Close(s, n)
    case Shutdown => CloseAll(s)
  }

  lemma NextKeeps(s: State, step: Step)
    requires Valid(s) && Enabled(s, step)
    ensures Valid(Next(s, step))
  {
    match step {
      case Accept(n, spare) =>
        var r := Join(s, n, spare);
        assert forall i :: 0 <= i < s.len ==> r.backing[i] == s.backing[i];
      case Count =>
      case Gone(n) => CloseKeeps(s, n);
      case Shutdown => RangeKeeps(s, 0, s.len);
    }
  }

  function Run(steps: seq<Step>): (s: State)
    ensures s.len <= |s.backing|
  {
    if steps == [] then EMPTY else Next(Run(steps[..|steps| - 1]), steps[|steps| - 1])
  }

  ghost predicate Possible(steps: seq<Step>) {
    forall i :: 0 <= i < |steps| ==> Enabled(Run(steps[..i]), steps[i])
  }

  /** In every run: close callbacks fire exactly once per closed node and not before, the list
      has no duplicates and holds only online nodes, and the counter is the number of online
      nodes minus the accepts still between their two callbacks. */
  lemma {:induction false} ConnectionAccounting(steps: seq<Step>)
    requires Possible(steps)
    ensures Valid(Run(steps))
    decreases |steps|
  {
    if steps != [] {
      var front := steps[..|steps| - 1];
      PossibleFront(steps);
      ConnectionAccounting(front);
      NextKeeps(Run(front), steps[|steps| - 1]);
    }
  }

  // ---- what the list holds ----

  /** The nodes accepted since the last shutdown, in the order of their accepts. */
  function Accepted(steps: seq<Step>): (r: seq<id>) {
    if steps == [] then []
    else
      var front, last := Accepted(steps[..|steps| - 1]), steps[|steps| - 1];
      match last
      case Accept(n, _) => front + [n]
      case Shutdown => []
      case _ => front
  }

  /** The members of `g` that are in `on`, in their order. */
  function Kept(g: seq<id>, on: set<id>): (r: seq<id>) {
    if g == [] then [] else Kept(g[..|g| - 1], on) + if g[|g| - 1] in on then [g[|g| - 1]] else []
  }

  lemma KeptSnoc(g: seq<id>, x: id, on: set<id>)
    ensures Kept(g + [x], on) == Kept(g, on) + if x in on then [x] else []
  {
    assert (g + [x])[..|g|] == g;
  }

  lemma {:induction false} KeptHas(g: seq<id>, on: set<id>, x: id)
    ensures x in Kept(g, on) <==> x in g && x in on
    decreases |g|
  {
    if g != [] {
      KeptHas(g[..|g| - 1], on, x);
      assert g == g[..|g| - 1] + [g[|g| - 1]];
    }
  }

  /** A node that is not in the list makes no difference. */
  lemma {:induction false} KeptAgrees(g: seq<id>, on: set<id>, on': set<id>)
    requires forall x :: x in g ==> (x in on <==> x in on')
    ensures Kept(g, on) == Kept(g, on')
    decreases |g|
  {
    if g != [] {
      assert g[|g| - 1] in g;
      KeptAgrees(g[..|g| - 1], on, on');
    }
  }

  lemma {:induction false} KeptTwice(g: seq<id>, on: set<id>, on': set<id>)
    requires on' <= on
    ensures Kept(Kept(g, on), on') == Kept(g, on')
    decreases |g|
  {
    if g != [] {
      var front, last := g[..|g| - 1], g[|g| - 1];
      KeptTwice(front, on, on');
      KeptSnoc(Kept(front, on), last, on');
      assert Kept(front, on) + [] == Kept(front, on);
    }
  }

  lemma {:induction false} KeptAll(g: seq<id>, on: set<id>)
    requires forall x :: x in g ==> x in on
    ensures Kept(g, on) == g
    decreases |g|
  {
    if g != [] {
      var front, last := g[..|g| - 1], g[|g| - 1];
      assert last in g && g == front + [last];
      KeptAll(front, on);
    }
  }

  lemma {:induction false} KeptAppend(a: seq<id>, b: seq<id>, on: set<id>)
    ensures Kept(a + b, on) == Kept(a, on) + Kept(b, on)
    decreases |b|
  {
    if b == [] {
      assert a + b == a;
    } else {
      KeptAppend(a, b[..|b| - 1], on);
      assert (a + b)[..|a + b| - 1] == a + b[..|b| - 1];
    }
  }

  /** Cutting a node out of a list of distinct online nodes. */
  lemma KeptCut(g: seq<id>, on: set<id>, i: nat)
    requires i < |g| && Distinct(g) && forall x :: x in g ==> x in on
    ensures Kept(g, on - {g[i]}) == g[..i] + g[i + 1..]
  {
    hide Kept;
    var on', tail := on - {g[i]}, g[i + 1..];
    assert g == (g[..i] + [g[i]]) + tail;
    KeptAppend(g[..i] + [g[i]], tail, on');
    KeptSnoc(g[..i], g[i], on');
    KeptAll(g[..i], on');
    KeptAll(tail, on');
    assert g[..i] + [] == g[..i];
  }

  ghost predicate Lists(s: State, g: seq<id>) {
    s.len <= |s.backing| && Members(s) == Kept(g, s.online) && forall x :: x in g ==> x in s.fired
  }

  lemma JoinLists(s: State, n: id, spare: nat, g: seq<id>)
    requires Valid(s) && n !in s.fired && Lists(s, g)
    ensures Lists(Join(s, n, spare), g + [n])
  {
    hide Kept, Valid;
    KeptAgrees(g, s.online, s.online + {n});
    KeptSnoc(g, n, s.online + {n});
    assert Members(Join(s, n, spare)) == Members(s) + [n];
  }

  lemma CloseLists(s: State, n: id, g: seq<id>)
    requires Valid(s) && Lists(s, g)
    ensures Lists(Close(s, n), g)
  {
    hide Kept, ShiftLeft, IndexOf;
    if n in s.online {
      var m, i := Members(s), IndexOf(s.backing, n, s.len);
      KeptTwice(g, s.online, s.online - {n});
      if i < s.len {
        assert m[i] == n;
        KeptCut(m, s.online, i);
        ShiftCuts(s.backing, i, s.len);
      } else {
        assert n !in m;
        KeptAll(m, s.online - {n});
      }
    }
  }

  lemma ShiftCuts(a: seq<id>, i: nat, len: nat)
    requires i < len <= |a|
    ensures ShiftLeft(a, i, len)[..len - 1] == a[..len][..i] + a[..len][i + 1..]
  {
  }

  /** How many accepts have run their first callback, and how many their second. */
  function Accepts(steps: seq<Step>): (n: nat) {
    if steps == [] then 0 else Accepts(steps[..|steps| - 1]) + if steps[|steps| - 1].Accept? then 1 else 0
  }

  function Counts(steps: seq<Step>): (n: nat) {
    if steps == [] then 0 else Counts(steps[..|steps| - 1]) + if steps[|steps| - 1].Count? then 1 else 0
  }

  /** In every run the list is exactly the nodes accepted since the last shutdown and still
      online, in the order of their accepts; and the accepts that are not counted yet are those
      whose second callback has not run. */
  lemma {:induction false} ListIsAccepted(steps: seq<Step>)
    requires Possible(steps)
    ensures Members(Run(steps)) == Kept(Accepted(steps), Run(steps).online)
    ensures Run(steps).accepting == Accepts(steps) - Counts(steps)
    ensures forall x :: x in Accepted(steps) ==> x in Run(steps).fired
    decreases |steps|
  {
    if steps != [] {
      var front, step := steps[..|steps| - 1], steps[|steps| - 1];
      PossibleFront(steps);
      ListIsAccepted(front);
      ConnectionAccounting(front);
      StepLists(Run(front), step, Accepted(front));
      StepCounts(Run(front), step);
    }
  }

  lemma PossibleFront(steps: seq<Step>)
    requires Possible(steps) && steps != []
    ensures var front := steps[..|steps| - 1]; Possible(front) && Enabled(Run(front), steps[|steps| - 1])
  {
    var front := steps[..|steps| - 1];
    forall i | 0 <= i < |front|
      ensures Enabled(Run(front[..i]), front[i])
    {
      assert front[..i] == steps[..i];
    }
  }

  lemma StepLists(s: State, step: Step, g: seq<id>)
    requires Valid(s) && Enabled(s, step) && Lists(s, g)
    ensures Lists(Next(s, step), match step case Accept(n, _) => g + [n] case Shutdown => [] case _ => g)
  {
    match step {
      case Accept(n, spare) => JoinLists(s, n, spare, g);
      case Count =>
      case Gone(n) => CloseLists(s, n, g);
      case Shutdown =>
    }
  }

  lemma StepCounts(s: State, step: Step)
    requires s.len <= |s.backing|
    ensures Next(s, step).accepting == s.accepting + (if step.Accept? then 1 else 0) - (if step.Count? then 1 else 0)
  {
    if step.Shutdown? { RangeCounts(s, 0, s.len); }
  }

  lemma {:induction false} RangeCounts(s: State, i: nat, len: nat)
    requires s.len <= |s.backing| && i <= len <= |s.backing|
    ensures Range(s, i, len).accepting == s.accepting
    decreases len - i
  {
    if i < len { RangeCounts(Close(s, s.backing[i]), i + 1, len); }
  }

  /** Until a shutdown a node is listed exactly when it is online, and that is exactly when it
      has been accepted and has not gone. */
  lemma ListedIffOnline(steps: seq<Step>, n: id)
    requires Possible(steps) && Shutdown !in steps
    ensures n in Members(Run(steps)) <==> n in Run(steps).online
    ensures n in Run(steps).online <==> n in Accepted(steps) && Gone(n) !in steps
  {
    hide Run, Accepted, Kept, Possible;
    ListIsAccepted(steps);
    KeptHas(Accepted(steps), Run(steps).online, n);
    OnlineIff(steps, n);
  }

  lemma {:induction false} OnlineIff(steps: seq<Step>, n: id)
    requires Possible(steps) && Shutdown !in steps
    ensures n in Run(steps).online <==> n in Accepted(steps) && Gone(n) !in steps
    decreases |steps|
  {
    hide Possible, Valid;
    if steps != [] {
      var front, step := steps[..|steps| - 1], steps[|steps| - 1];
      assert steps == front + [step];
      PossibleFront(steps);
      OnlineIff(front, n);
      ListIsAccepted(front);
      if Gone(n) in front { GoneKnown(front, n); }
    }
  }

  /** Nobody goes before being accepted. */
  lemma {:induction false} GoneKnown(steps: seq<Step>, n: id)
    requires Possible(steps) && Gone(n) in steps
    ensures n in Run(steps).fired
    decreases |steps|
  {
    var front, step := steps[..|steps| - 1], steps[|steps| - 1];
    assert steps == front + [step];
    PossibleFront(steps);
    if step != Gone(n) { GoneKnown(front, n); }
    FiredGrows(Run(front), step, n);
  }

  lemma FiredGrows(s: State, step: Step, n: id)
    requires s.len <= |s.backing| && n in s.fired
    ensures n in Next(s, step).fired
  {
    if step.Shutdown? { RangeFired(s, 0, s.len, n); }
  }

  lemma {:induction false} RangeFired(s: State, i: nat, len: nat, n: id)
    requires s.len <= |s.backing| && i <= len <= |s.backing| && n in s.fired
    ensures n in Range(s, i, len).fired
    decreases len - i
  {
    if i < len { RangeFired(Close(s, s.backing[i]), i + 1, len, n); }
  }

  // ---- the counter ----

  /** In every run the counter is exact if and only if no accept is between its two callbacks,
      and negative if and only if more accepts are than nodes are online. */
  lemma CounterIsExact(steps: seq<Step>)
    requires Possible(steps)
    ensures Run(steps).connects == |Run(steps).online| <==> Run(steps).accepting == 0
    ensures Run(steps).connects < 0 <==> Run(steps).accepting > |Run(steps).online|
  {
    ConnectionAccounting(steps);
  }

  /** Between the two callbacks it can be: a node that goes away there leaves minus one. */
  lemma CounterCanBeNegative(n: id)
    ensures Possible([Accept(n, 0), Gone(n)]) && Run([Accept(n, 0), Gone(n)]).connects == -1
  {
    var steps := [Accept(n, 0), Gone(n)];
    assert steps[..0] == [] && steps[..1] == [Accept(n, 0)] && [Accept(n, 0)][..0] == [];
    assert Run([Accept(n, 0)]) == Join(EMPTY, n, 0);
    assert Run(steps) == Close(Join(EMPTY, n, 0), n);
    assert Join(EMPTY, n, 0).backing == [n];
    assert IndexOf([n], n, 1) == 0;
  }

  // ---- which nodes a shutdown closes ----

  /** After `i` reads, while the reader has not met the end of the shrinking list: the nodes at
      odd places slid under it unread, the even ones are closed, the last one is repeated
      behind the end. */
  ghost predicate Sliding(s: State, g: seq<id>, online: set<id>, i: nat) {
    && 2 * i <= |g| <= |s.backing| && s.len == |g| - i && Slots(s.backing, g, i)
    && s.online == online - Evens(g, i)
  }

  ghost predicate Slots(a: seq<id>, g: seq<id>, i: nat)
    requires 2 * i <= |g| <= |a|
  {
    && (forall t :: 0 <= t < i ==> a[t] == g[2 * t + 1])
    && (forall t :: i <= t < |g| - i ==> a[t] == g[t + i])
    && (forall t :: |g| - i <= t < |g| ==> a[t] == g[|g| - 1])
  }

  lemma SlotsShift(a: seq<id>, g: seq<id>, i: nat)
    requires 2 * i + 1 < |g| <= |a| && Slots(a, g, i)
    ensures 2 * (i + 1) <= |g| && Slots(ShiftLeft(a, i, |g| - i), g, i + 1)
  {
  }

  lemma SlotsFront(a: seq<id>, g: seq<id>, i: nat)
    requires Distinct(g) && 2 * i + 1 < |g| <= |a| && Slots(a, g, i)
    ensures a[i] == g[2 * i] && forall t :: 0 <= t < i ==> a[t] != g[2 * i]
  {
  }

  lemma SlotsEnd(a: seq<id>, g: seq<id>)
    requires g != [] && |g| <= |a| && Distinct(g) && Slots(a, g, |g| / 2)
    ensures var h, n := |g| / 2, g[|g| - 1];
            && (forall t :: h <= t < |g| ==> a[t] == n)
            && a[|g| - h - 1] == n && (forall t :: 0 <= t < |g| - h - 1 ==> a[t] != n)
  {
    var h := |g| / 2;
    forall t | 0 <= t < |g| - h - 1
      ensures a[t] != g[|g| - 1]
    {
      assert t < h && a[t] == g[2 * t + 1];
    }
  }

  /** The nodes at the first `i` even places. */
  function Evens(g: seq<id>, i: nat): (r: set<id>)
    requires 2 * i <= |g| + 1
  {
    set t | 0 <= t < i :: g[2 * t]
  }

  ghost predicate Distinct(g: seq<id>) {
    forall i, j :: 0 <= i < j < |g| ==> g[i] != g[j]
  }

  lemma SlideOnce(s: State, g: seq<id>, online: set<id>, i: nat)
    requires Distinct(g) && (forall n :: n in g ==> n in online)
    requires 2 * i + 1 < |g| && Sliding(s, g, online, i)
    ensures s.backing[i] == g[2 * i]
    ensures Sliding(Close(s, s.backing[i]), g, online, i + 1)
  {
    hide Slots, ShiftLeft;
    var n := g[2 * i];
    assert n in g;
    SlotsFront(s.backing, g, i);
    SlotsShift(s.backing, g, i);
    FoundAt(s.backing, n, s.len, i);
    EvensNext(g, i);
  }

  lemma EvensNext(g: seq<id>, i: nat)
    requires Distinct(g) && 2 * i < |g|
    ensures Evens(g, i + 1) == Evens(g, i) + {g[2 * i]} && g[2 * i] !in Evens(g, i)
  {
  }

  lemma LastIsNotEven(g: seq<id>)
    requires g != [] && Distinct(g)
    ensures g[|g| - 1] !in Evens(g, |g| / 2)
  {
  }

  lemma FoundAt(a: seq<id>, n: id, len: nat, i: nat)
    requires i < len <= |a| && a[i] == n && forall t :: 0 <= t < i ==> a[t] != n
    ensures IndexOf(a, n, len) == i
  {
  }

  /** The read in the middle finds the last node of the list, live or stale, and closes it. */
  lemma SlideEnds(s: State, g: seq<id>, online: set<id>)
    requires g != [] && Distinct(g) && (forall n :: n in g ==> n in online)
    requires Sliding(s, g, online, |g| / 2)
    ensures Range(s, |g| / 2, |g|).online == online - Evens(g, |g| / 2) - {g[|g| - 1]}
  {
    hide Slots;
    var h, n := |g| / 2, g[|g| - 1];
    SlotsEnd(s.backing, g);
    LastIsNotEven(g);
    assert n in g;
    FoundAt(s.backing, n, s.len, s.len - 1);
    var r := Close(s, n);
    assert r.backing == s.backing;
    NothingMore(r, n, h + 1, |g|);
  }

  lemma {:induction false} NothingMore(s: State, n: id, i: nat, len: nat)
    requires s.len <= |s.backing| && i <= len <= |s.backing| && n !in s.online
    requires forall t :: i <= t < len ==> s.backing[t] == n
    ensures Range(s, i, len) == s
    decreases len - i
  {
    if i < len { NothingMore(s, n, i + 1, len); }
  }

  lemma {:induction false} Slide(s: State, g: seq<id>, online: set<id>, i: nat)
    requires g != [] && Distinct(g) && (forall n :: n in g ==> n in online)
    requires Sliding(s, g, online, i)
    ensures Range(s, i, |g|).online == online - Evens(g, |g| / 2) - {g[|g| - 1]}
    decreases |g| - i
  {
    hide Slots, Close;
    if i < |g| / 2 {
      SlideOnce(s, g, online, i);
      Slide(Close(s, s.backing[i]), g, online, i + 1);
    } else {
      SlideEnds(s, g, online);
    }
  }

  /** The nodes at even places, and the last one. */
  function Reached(g: seq<id>): (r: set<id>) {
    set j | 0 <= j < |g| && (j % 2 == 0 || j == |g| - 1) :: g[j]
  }

  /** A shutdown closes exactly every second node of the list and the last one. */
  lemma ShutdownCloses(s: State)
    requires Valid(s)
    ensures CloseAll(s).online == s.online - Reached(Members(s))
  {
    var g := Members(s);
    if g != [] {
      assert Sliding(s, g, s.online, 0);
      Slide(s, g, s.online, 0);
      EvensAndLast(g);
    }
  }

  lemma EvensAndLast(g: seq<id>)
    requires g != []
    ensures Evens(g, |g| / 2) + {g[|g| - 1]} == Reached(g)
  {
    var h := |g| / 2;
    forall j | 0 <= j < |g| && (j % 2 == 0 || j == |g| - 1)
      ensures g[j] in Evens(g, h) + {g[|g| - 1]}
    {
      if j < |g| - 1 { assert g[2 * (j / 2)] in Evens(g, h); }
    }
    forall t | 0 <= t < h
      ensures g[2 * t] in Reached(g)
    {
      assert (2 * t) % 2 == 0;
    }
  }

  /** So every connection is closed exactly when there were at most two; the others are dropped
      from the list while still online. */
  lemma ShutdownClosesAllIff(s: State)
    requires Valid(s)
    ensures (forall n :: n in Members(s) ==> n !in CloseAll(s).online) <==> s.len <= 2
  {
    hide CloseAll, Range;
    var g := Members(s);
    ShutdownCloses(s);
    if s.len <= 2 {
      forall n | n in g
        ensures n in Reached(g)
      {
        var j :| 0 <= j < |g| && g[j] == n;
        assert j % 2 == 0 || j == |g| - 1;
      }
    } else {
      assert g[1] in g;
    }
  }

  // ---- the slice itself ----

  class GroupList {
    var g: array<id>
    var len: nat
    var online: set<id>
    var connects: int
    var fired: map<id, nat>
    var accepting: int

    ghost predicate Ok()
      reads this
    {
      len <= g.Length
    }

    ghost function View(): (s: State)
      reads this, g
      requires Ok()
    {
      State(g[..], len, online, connects, fired, accepting)
    }

    constructor ()
      ensures Ok() && fresh(g) && View() == EMPTY
    {
      g := new id[0];
      len, online, connects, fired, accepting := 0, {}, 0, map[], 0;
    }

    /** `onConnect` and the append it does. */
    method OnConnect(n: id, spare: nat)
      requires Ok()
      modifies this, g
      ensures Ok() && (g == old(g) || fresh(g)) && View() == Join(old(View()), n, spare)
    {
      if len == g.Length {
        var bigger := new id[len + 1 + spare](_ => 0);
        forall i | 0 <= i < len { bigger[i] := g[i]; }
        assert bigger[..len] == g[..];
        g := bigger;
      }
      g[len] := n;
      len, online, fired, accepting := len + 1, online + {n}, fired[n := 0], accepting + 1;
    }

    /** `newConnect`. */
    method NewConnect()
      requires Ok()
      modifies this`connects, this`accepting
      ensures Ok() && View() == Counted(old(View()))
    {
      connects, accepting := connects + 1, accepting - 1;
    }

    method Find(n: id) returns (i: nat)
      requires Ok()
      ensures i == IndexOf(g[..], n, len)
    {
      i := 0;
      while i < len
        invariant i <= len && forall j :: 0 <= j < i ==> g[j] != n
      {
        if g[i] == n {
          FoundAt(g[..], n, len, i);
          return;
        }
        i := i + 1;
      }
    }

    /** `remove`: shift the tail over the node, in the array every range is reading. */
    method RemoveNode(n: id)
      requires Ok()
      modifies this`len, this`connects, g
      ensures Ok() && View() == Remove(old(View()), n)
    {
      var i := Find(n);
      if i < len {
        ShiftDown(i);
        len := len - 1;
      }
      connects := connects - 1;
    }

    method ShiftDown(i: nat)
      requires Ok() && i < len
      modifies g
      ensures g[..] == ShiftLeft(old(g[..]), i, len)
    {
      for k := i to len - 1
        invariant forall x :: 0 <= x < g.Length ==> g[x] == if i <= x < k then old(g[x + 1]) else old(g[x])
      {
        g[k] := g[k + 1];
      }
      assert forall x :: 0 <= x < g.Length ==> g[..][x] == ShiftLeft(old(g[..]), i, len)[x];
    }

    /** `tcpClientNode.close` with the group's and the service's callbacks. */
    method CloseNode(n: id)
      requires Ok()
      modifies this`len, this`connects, this`online, this`fired, g
      ensures Ok() && View() == Close(old(View()), n)
    {
      if n !in online { return; }
      online := online - {n};
      fired := fired[n := (if n in fired then fired[n] else 0) + 1];
      RemoveNode(n);
    }

    /** `groups.close`. */
    method CloseGroup()
      requires Ok()
      modifies this, g
      ensures Ok() && fresh(g) && View() == CloseAll(old(View()))
    {
      ghost var start := View();
      var arr, n := g, len;
      for i := 0 to n
        invariant Ok() && g == arr == old(g) && n <= arr.Length
        invariant Range(start, 0, n) == Range(View(), i, n)
      {
        CloseNode(arr[i]);
      }
      g, len := new id[0], 0;
    }
  }
}
