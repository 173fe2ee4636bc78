/** Service discovery on the client: keeping the service list in step with the registry, and
    choosing the least loaded service. */
module Discovery {

  type text = string

  /** What the registry answers: a service ID and its `host:port`. */
  datatype Entry = Entry(id: text, addr: text)

  /** A known service; `mark` stands for the identity of the entry. */
  datatype Server = Server(offline: bool, mark: nat)

  type services = map<text, Server>

  function Addrs(es: seq<Entry>): (r: set<text>) {
    set e | e in es :: e.addr
  }

  ghost predicate HasId(es: seq<Entry>, id: text) {
    exists i :: 0 <= i < |es| && es[i].id == id
  }

  /** The entries of `a` whose ID is not in `b`, in order. */
  ghost function Missing(a: seq<Entry>, b: seq<Entry>): (r: seq<Entry>)
    ensures forall e :: e in r <==> e in a && !HasId(b, e.id)
  {
    if a == [] then []
    else
      var front, last := a[..|a| - 1], a[|a| - 1];
      assert a == front + [last];
      Missing(front, b) + if HasId(b, last.id) then [] else [last]
  }

  /** Missing entries stay in their order: each stands behind as many as are missing before it. */
  lemma {:induction false} MissingAt(a: seq<Entry>, b: seq<Entry>, i: nat)
    requires i < |a| && !HasId(b, a[i].id)
    ensures var k := |Missing(a[..i], b)|; k < |Missing(a, b)| && Missing(a, b)[k] == a[i]
    decreases |a|
  {
    hide HasId;
    var front := a[..|a| - 1];
    if i < |a| - 1 {
      MissingAt(front, b, i);
      assert front[..i] == a[..i];
    } else {
      assert a[..i] == front;
    }
  }

  function Deleted(m: services, es: seq<Entry>): (r: services) {
    m - Addrs(es)
  }

  /** New services start online under a new identity; known ones are left alone. */
  function Added(m: services, es: seq<Entry>, mark: nat): (r: services) {
    map a | a in m.Keys + Addrs(es) :: if a in m then m[a] else Server(false, mark)
  }

  /** One round: delete what is gone, add what is new. */
  ghost function Round(m: services, known: seq<Entry>, answer: seq<Entry>, mark: nat): (r: services) {
    Added(Deleted(m, Missing(known, answer)), Missing(answer, known), mark)
  }

  /** `getDelete`. */
  method GetDelete(a: seq<Entry>, b: seq<Entry>) returns (d: seq<Entry>)
    ensures d == Missing(a, b)
  {
    d := [];
    for i := 0 to |a|
      invariant d == Missing(a[..i], b)
    {
      var found := false;
      for j := 0 to |b|
        invariant !found
        invariant forall x :: 0 <= x < j ==> b[x].id != a[i].id
      {
        if a[i].id == b[j].id {
          found := true;
          break;
        }
      }
      assert found <==> HasId(b, a[i].id);
      assert a[..i + 1][..i] == a[..i];
      if !found {
        d := d + [a[i]];
      }
    }
    assert a[..|a|] == a;
  }

  class Watcher {
    var addrs: seq<Entry>
    var lastIndex: nat
    var known: services   // Client.Services, changed through the watch callback

    /** One pass of `process`; a failed query changes nothing, a nil answer is an empty one. */
    method Process(failed: bool, answer: seq<Entry>, index: nat, mark: nat)
      modifies this
      ensures failed ==> addrs == old(addrs) && known == old(known) && lastIndex == old(lastIndex)
      ensures !failed ==> addrs == answer && lastIndex == index && known == Round(old(known), old(addrs), answer, mark)
    {
      if failed { return; }
      DialDelete(answer);
      DialAdd(answer, mark);
      addrs, lastIndex := answer, index;
    }

    method DialDelete(answer: seq<Entry>)
      modifies this`known
      ensures known == Deleted(old(known), Missing(addrs, answer))
    {
      var gone := GetDelete(addrs, answer);
      for i := 0 to |gone|
        invariant known == Deleted(old(known), gone[..i])
      {
        assert gone[..i + 1] == gone[..i] + [gone[i]];
        AddrsOne(gone[..i], gone[i]);
        known := known - {gone[i].addr};
      }
      assert gone[..|gone|] == gone;
    }

    method DialAdd(answer: seq<Entry>, mark: nat)
      modifies this`known
      ensures known == Added(old(known), Missing(answer, addrs), mark)
    {
      var added := GetDelete(answer, addrs);
      for i := 0 to |added|
        invariant known == Added(old(known), added[..i], mark)
      {
        assert added[..i + 1] == added[..i] + [added[i]];
        AddedOne(old(known), added[..i], added[i], mark);
        if added[i].addr !in known {
          known := known[added[i].addr := Server(false, mark)];
        }
      }
      assert added[..|added|] == added;
    }
  }

  lemma AddedOne(m: services, es: seq<Entry>, e: Entry, mark: nat)
    ensures var r := Added(m, es, mark);
            Added(m, es + [e], mark) == if e.addr in r then r else r[e.addr := Server(false, mark)]
  {
  }

  lemma AddrsOne(es: seq<Entry>, e: Entry)
    ensures Addrs(es + [e]) == Addrs(es) + {e.addr}
  {
  }

  // ---- following the registry ----

  /** An answered service that is not new sits at an address that stays, or that a new one
      brings along; a known service that is not gone leaves an address that goes, or that is
      still answered. */
  ghost predicate Followable(known: seq<Entry>, answer: seq<Entry>) {
    var gone, added := Addrs(Missing(known, answer)), Addrs(Missing(answer, known));
    && (forall e :: e in answer && HasId(known, e.id) ==> e.addr in added || (e.addr in Addrs(known) && e.addr !in gone))
    && (forall x :: x in known && HasId(answer, x.id) ==> x.addr in gone || x.addr in Addrs(answer))
  }

  /** What a round does to the list: an address whose ID vanished starts afresh or leaves, every
      other one keeps its entry, offline flag included. The list ends up with the addresses of
      the answer exactly when the answer can be followed. */
  lemma RoundSynchronisesIff(m: services, known: seq<Entry>, answer: seq<Entry>, mark: nat)
    requires m.Keys == Addrs(known)
    ensures var r := Round(m, known, answer, mark);
            && (r.Keys == Addrs(answer) <==> Followable(known, answer))
            && forall a :: a in r ==>
                 r[a] == if a in m && a !in Addrs(Missing(known, answer)) then m[a] else Server(false, mark)
  {
    hide Missing, Addrs, Followable;
    FollowableIff(known, answer);
  }

  lemma FollowableIff(known: seq<Entry>, answer: seq<Entry>)
    ensures (Addrs(known) - Addrs(Missing(known, answer))) + Addrs(Missing(answer, known)) == Addrs(answer)
       <==> Followable(known, answer)
  {
    hide Missing, HasId;
    var gone, added := Addrs(Missing(known, answer)), Addrs(Missing(answer, known));
    var r := (Addrs(known) - gone) + added;
    if r == Addrs(answer) {
      forall e | e in answer
        ensures e.addr in added || (e.addr in Addrs(known) && e.addr !in gone)
      {
        assert e.addr in r;
      }
      forall x | x in known
        ensures x.addr in gone || x.addr in Addrs(answer)
      {
        assert x.addr in gone || x.addr in r;
      }
    }
    if Followable(known, answer) {
      forall e | e in answer
        ensures e.addr in r
      {
        if !HasId(known, e.id) { assert e in Missing(answer, known); }
      }
      forall x | x in known && x.addr !in gone
        ensures x.addr in Addrs(answer)
      {
        assert x !in Missing(known, answer);
      }
    }
  }

  /** IDs and addresses determine each other, as the registered ID spells out the address. */
  ghost predicate Consistent(es: seq<Entry>) {
    forall x, y :: x in es && y in es ==> (x.id == y.id <==> x.addr == y.addr)
  }

  /** Such answers can always be followed. */
  lemma ConsistentIsFollowable(known: seq<Entry>, answer: seq<Entry>)
    requires Consistent(known + answer)
    ensures Followable(known, answer)
  {
    forall e | e in answer && HasId(known, e.id)
      ensures e.addr in Addrs(known) && e.addr !in Addrs(Missing(known, answer))
    {
      var i :| 0 <= i < |known| && known[i].id == e.id;
      assert known[i] in known + answer && e in known + answer;
    }
    forall x | x in known && HasId(answer, x.id)
      ensures x.addr in Addrs(answer)
    {
      var i :| 0 <= i < |answer| && answer[i].id == x.id;
      assert answer[i] in known + answer && x in known + answer;
    }
  }

  /** A service that moves, under its old ID, to an address nobody else has is not noticed. */
  lemma MovedServiceIsMissed(m: services, known: seq<Entry>, answer: seq<Entry>, mark: nat, e: Entry)
    requires m.Keys == Addrs(known) && e in answer && HasId(known, e.id) && e.addr !in Addrs(known)
    requires forall x :: x in answer && x.addr == e.addr ==> HasId(known, x.id)
    ensures !Followable(known, answer) && e.addr !in Round(m, known, answer, mark)
  {
  }

  /** The list some time later: the client sets offline flags and changes nothing else. */
  ghost predicate Later(m: services, m': services) {
    && m'.Keys == m.Keys
    && forall a :: a in m ==> m'[a].mark == m[a].mark && (m[a].offline ==> m'[a].offline)
  }

  /** A history of the watcher: `ms[i]` is the list some time after the i-th answer. */
  ghost predicate Watching(ms: seq<services>, answers: seq<seq<Entry>>) {
    && |ms| == |answers| > 0 && ms[0].Keys == Addrs(answers[0]) && (forall a :: a in ms[0] ==> ms[0][a].mark == 0)
    && forall i :: 0 < i < |ms| ==> Later(Round(ms[i - 1], answers[i - 1], answers[i], i), ms[i])
  }

  /** The list has the addresses of the latest answer after every round of a history, exactly
      when every answer can be followed from the one before. */
  lemma WatcherStaysInStepIff(ms: seq<services>, answers: seq<seq<Entry>>)
    requires Watching(ms, answers)
    ensures (forall i :: 0 <= i < |ms| ==> ms[i].Keys == Addrs(answers[i]))
       <==> (forall i :: 0 < i < |ms| ==> Followable(answers[i - 1], answers[i]))
  {
    hide Round, Addrs, Followable;
    if forall i :: 0 <= i < |ms| ==> ms[i].Keys == Addrs(answers[i]) {
      forall i | 0 < i < |ms|
        ensures Followable(answers[i - 1], answers[i])
      {
        RoundSynchronisesIff(ms[i - 1], answers[i - 1], answers[i], i);
      }
    }
    if forall i :: 0 < i < |ms| ==> Followable(answers[i - 1], answers[i]) {
      forall i | 0 <= i < |ms|
        ensures ms[i].Keys == Addrs(answers[i])
      {
        FollowedSoFar(ms, answers, i);
      }
    }
  }

  lemma {:induction false} FollowedSoFar(ms: seq<services>, answers: seq<seq<Entry>>, i: nat)
    requires Watching(ms, answers) && i < |ms|
    requires forall x :: 0 < x <= i ==> Followable(answers[x - 1], answers[x])
    ensures ms[i].Keys == Addrs(answers[i])
    decreases i
  {
    hide Round, Addrs, Followable;
    if i > 0 {
      FollowedSoFar(ms, answers, i - 1);
      RoundSynchronisesIff(ms[i - 1], answers[i - 1], answers[i], i);
    }
  }

  /** The registry stops answering the ID of an address. */
  ghost predicate Vanishes(answers: seq<seq<Entry>>, x: nat, a: text)
    requires 0 < x < |answers|
  {
    a in Addrs(Missing(answers[x - 1], answers[x]))
  }

  /** Over any stretch of a history an address keeps the entry it had exactly when its ID never
      vanished in between, and then a service known to be offline stays so. */
  lemma {:induction false} SurvivorKeepsEntryIff(ms: seq<services>, answers: seq<seq<Entry>>, j: nat, i: nat, a: text)
    requires Watching(ms, answers) && j <= i < |ms| && a in ms[j]
    ensures (a in ms[i] && ms[i][a].mark == ms[j][a].mark) <==> forall x :: j < x <= i ==> !Vanishes(answers, x, a)
    ensures a in ms[i] && ms[i][a].mark == ms[j][a].mark && ms[j][a].offline ==> ms[i][a].offline
    decreases i
  {
    hide Round, Missing, Addrs;
    if j < i {
      SurvivorKeepsEntryIff(ms, answers, j, i - 1, a);
      EntryAfter(ms, answers, i, a);
      MarkIsOld(ms, answers, j, a);
      if x :| j < x < i && Vanishes(answers, x, a) {
        if a in ms[i] { MarkIsFresh(ms, answers, x, i, a); }
      }
    }
  }

  /** One round seen from one address. */
  lemma EntryAfter(ms: seq<services>, answers: seq<seq<Entry>>, i: nat, a: text)
    requires Watching(ms, answers) && 0 < i < |ms|
    ensures a in ms[i - 1] && !Vanishes(answers, i, a) ==>
              a in ms[i] && ms[i][a].mark == ms[i - 1][a].mark && (ms[i - 1][a].offline ==> ms[i][a].offline)
    ensures a in ms[i] && !(a in ms[i - 1] && !Vanishes(answers, i, a)) ==> ms[i][a].mark == i
  {
    hide Addrs, Missing;
    var r := Round(ms[i - 1], answers[i - 1], answers[i], i);
    assert Later(r, ms[i]);
    assert a in r <==> a in ms[i];
  }

  lemma {:induction false} MarkIsOld(ms: seq<services>, answers: seq<seq<Entry>>, i: nat, a: text)
    requires Watching(ms, answers) && i < |ms| && a in ms[i]
    ensures ms[i][a].mark <= i
    decreases i
  {
    hide Round, Missing, Addrs;
    if i > 0 {
      EntryAfter(ms, answers, i, a);
      if a in ms[i - 1] { MarkIsOld(ms, answers, i - 1, a); }
    }
  }

  lemma {:induction false} MarkIsFresh(ms: seq<services>, answers: seq<seq<Entry>>, x: nat, i: nat, a: text)
    requires Watching(ms, answers) && 0 < x <= i < |ms| && Vanishes(answers, x, a) && a in ms[i]
    ensures ms[i][a].mark >= x
    decreases i
  {
    hide Round, Missing, Addrs;
    EntryAfter(ms, answers, i, a);
    if x < i && a in ms[i - 1] { MarkIsFresh(ms, answers, x, i - 1, a); }
  }

  // ---- least loaded ----

  datatype Option<T> = None | Some(value: T)

  ghost predicate Enumerates(order: seq<text>, m: services) {
    forall a :: a in order <==> a in m
  }

  /** `getServer`, for any iteration order of its two loops over the Go map. */
  method GetServer(m: services, order1: seq<text>, order2: seq<text>, load: text -> nat) returns (r: Option<text>)
    requires Enumerates(order1, m) && Enumerates(order2, m)
    ensures r.None? <==> forall a :: a in m ==> m[a].offline
    ensures r.Some? ==> r.value in m && !m[r.value].offline
                        && forall a :: a in m && !m[a].offline ==> load(r.value) <= load(a)
  {
    r := None;
    if |m| <= 0 { return; }
    var connects := map[];
    for i := 0 to |order1|
      invariant forall j :: 0 <= j < i ==> m[order1[j]].offline
    {
      if !m[order1[i]].offline {
        r := Some(order1[i]);
        connects := connects[order1[i] := load(order1[i])];
        break;
      }
    }
    assert r.None? ==> forall a :: a in order1 ==> m[a].offline;
    for i := 0 to |order2|
      invariant r.None? ==> forall a :: a in m ==> m[a].offline
      invariant r.Some? ==> r.value in m && !m[r.value].offline && r.value in connects
      invariant forall a :: a in connects ==> connects[a] == load(a)
      invariant r.Some? ==> forall j :: 0 <= j < i && !m[order2[j]].offline ==> load(r.value) <= load(order2[j])
    {
      var a := order2[i];
      if !m[a].offline {
        connects := connects[a := load(a)];
        if connects[a] < connects[r.value] {
          r := Some(a);
        }
      }
    }
  }
}
