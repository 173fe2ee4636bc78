/** The loop of `sendAll`: it ranges over the group list without a lock while connections come
    and go, and `remove` shifts the very array it is reading. */
module Fanout {
  import opened Groups

  /** One fan-out under way. The range keeps the array and the length it started with and reads
      each slot when it gets there; the next one is slot `|handed|`. */
  datatype Cast = Cast(
    s: State,          // the group list and the connections
    slots: seq<id>,    // the array the range captured
    shared: bool,      // it is still the list's own
    len: nat,          // the length the range captured
    handed: seq<id>)   // the nodes read so far

  function Start(s: State): (c: Cast) {
    Cast(s, s.backing, true, s.len, [])
  }

  datatype Step =
    | Read                     // the loop reads a slot and hands the event to that node
    | Change(g: Groups.Step)   // a connection comes, is counted or goes
    | Drop                     // the end of groups.close: the list is replaced by an empty one

  predicate Enabled(c: Cast, step: Step) {
    match step
    case Read => |c.handed| < c.len <= |c.slots|
    case Change(g) => !g.Shutdown? && c.s.len <= |c.s.backing| && Groups.Enabled(c.s, g)
    case Drop => true
  }

  /** An append to a full slice moves the list to another array; the range keeps the old one. */
  predicate Moves(s: State, g: Groups.Step) {
    g.Accept? && s.len == |s.backing|
  }

  function Next(c: Cast, step: Step): (c': Cast)
    requires Enabled(c, step)
  {
    match step
    case Read => c.(handed := c.handed + [c.slots[|c.handed|]])
    case Change(g) =>
      var s := Groups.Next(c.s, g);
      if c.shared && !Moves(c.s, g) then c.(s := s, slots := s.backing) else c.(s := s, shared := false)
    case Drop => c.(s := c.s.(backing := [], len := 0), shared := false)
  }

  ghost predicate IsRun(cs: seq<Cast>, steps: seq<Step>) {
    && |cs| == |steps| + 1 && Valid(cs[0].s) && cs[0] == Start(cs[0].s)
    && forall i :: 0 <= i < |steps| ==> Enabled(cs[i], steps[i]) && cs[i + 1] == Next(cs[i], steps[i])
  }

  // ---- what a step does to the slots still to be read ----

  /** A node leaves from before the last place while more than the last listed node is unread:
      everything behind it moves one place to the left. */
  predicate Slides(c: Cast, step: Step) {
    && step.Change? && step.g.Gone? && c.shared && step.g.n in c.s.online && c.s.len <= |c.s.backing|
    && IndexOf(c.s.backing, step.g.n, c.s.len) < c.s.len - 1 && |c.handed| < c.s.len - 1
  }

  /** Then the last node moves and stays: it will be read once more. */
  predicate Doubles(c: Cast, step: Step, x: id) {
    Slides(c, step) && c.s.backing[c.s.len - 1] == x
  }

  /** And if the one that left had been read, the next node moves under the reader. */
  predicate Skips(c: Cast, step: Step, x: id) {
    && Slides(c, step) && IndexOf(c.s.backing, step.g.n, c.s.len) < |c.handed|
    && c.s.backing[|c.handed|] == x
  }

  /** A new node takes a slot behind the list that still held a node to be read. */
  predicate Overwrites(c: Cast, step: Step, x: id) {
    && step.Change? && step.g.Accept? && c.shared
    && |c.handed| <= c.s.len < c.len && c.s.len < |c.s.backing| && c.s.backing[c.s.len] == x
  }

  /** How many times more or less `x` will be handed the event because of this step. */
  function Gain(c: Cast, step: Step, x: id): (g: int) {
    if Doubles(c, step, x) then 1 else if Skips(c, step, x) || Overwrites(c, step, x) then -1 else 0
  }

  /** What the first `i` steps add up to. */
  function Total(cs: seq<Cast>, steps: seq<Step>, x: id, i: nat): (g: int)
    requires i <= |steps| <= |cs|
  {
    if i == 0 then 0 else Total(cs, steps, x, i - 1) + Gain(cs[i - 1], steps[i - 1], x)
  }

  // ---- counting slots ----

  /** The slots from `lo` up to `hi` that hold `x`. */
  function Copies(a: seq<id>, lo: nat, hi: nat, x: id): (n: nat)
    requires hi <= |a|
  {
    if lo >= hi then 0 else Copies(a, lo, hi - 1, x) + if a[hi - 1] == x then 1 else 0
  }

  lemma {:induction false} CopiesAgree(a: seq<id>, b: seq<id>, lo: nat, hi: nat, x: id)
    requires hi <= |a| && hi <= |b| && forall k :: lo <= k < hi ==> (a[k] == x <==> b[k] == x)
    ensures Copies(a, lo, hi, x) == Copies(b, lo, hi, x)
    decreases hi
  {
    if lo < hi { CopiesAgree(a, b, lo, hi - 1, x); }
  }

  lemma {:induction false} CopiesPut(a: seq<id>, k: nat, v: id, lo: nat, hi: nat, x: id)
    requires k < |a| && hi <= |a|
    ensures Copies(a[k := v], lo, hi, x)
         == Copies(a, lo, hi, x) + if lo <= k < hi then (if v == x then 1 else 0) - (if a[k] == x then 1 else 0) else 0
    decreases hi
  {
    if lo < hi { CopiesPut(a, k, v, lo, hi - 1, x); }
  }

  lemma {:induction false} CopiesFront(a: seq<id>, lo: nat, hi: nat, x: id)
    requires lo < hi <= |a|
    ensures Copies(a, lo, hi, x) == Copies(a, lo + 1, hi, x) + if a[lo] == x then 1 else 0
    decreases hi
  {
    if lo < hi - 1 { CopiesFront(a, lo, hi - 1, x); }
  }

  lemma {:induction false} CopiesOnce(a: seq<id>, lo: nat, hi: nat, q: nat, x: id)
    requires hi <= |a| && q < |a| && a[q] == x && forall k :: lo <= k < hi && k != q ==> a[k] != x
    ensures Copies(a, lo, hi, x) == if lo <= q < hi then 1 else 0
    decreases hi
  {
    if lo < hi { CopiesOnce(a, lo, hi - 1, q, x); }
  }

  lemma {:induction false} CopiesNone(a: seq<id>, lo: nat, hi: nat, x: id)
    requires hi <= |a| && forall k :: lo <= k < hi ==> a[k] != x
    ensures Copies(a, lo, hi, x) == 0
    decreases hi
  {
    if lo < hi { CopiesNone(a, lo, hi - 1, x); }
  }

  // ---- the law ----

  ghost predicate Shaped(c: Cast) {
    Valid(c.s) && |c.handed| <= c.len <= |c.slots| && (c.shared ==> c.slots == c.s.backing)
  }

  /** `x` is in the list, at one of the places the range covers. */
  ghost predicate At(c: Cast, x: id, q: nat) {
    q < c.s.len <= |c.s.backing| && q < c.len && c.s.backing[q] == x
  }

  ghost predicate Listed(c: Cast, x: id) {
    exists q: nat :: At(c, x, q)
  }

  /** What has been handed to `x`, and what is still to come if nothing interferes. */
  function Account(c: Cast, x: id): (n: nat)
    requires |c.handed| <= c.len <= |c.slots|
  {
    multiset(c.handed)[x] + Copies(c.slots, |c.handed|, c.len, x)
  }

  lemma ReadBalances(c: Cast, x: id)
    requires Shaped(c) && Enabled(c, Read)
    ensures Shaped(Next(c, Read)) && Account(Next(c, Read), x) == Account(c, x)
  {
    CopiesFront(c.slots, |c.handed|, c.len, x);
  }

  lemma GoneBalances(c: Cast, n: id, x: id, q: nat)
    requires Shaped(c) && c.shared && Enabled(c, Change(Gone(n))) && n != x && At(c, x, q)
    ensures var c' := Next(c, Change(Gone(n)));
            && Shaped(c') && Listed(c', x) && Account(c', x) == Account(c, x) + Gain(c, Change(Gone(n)), x)
  {
    CloseKeeps(c.s, n);
    var r := IndexOf(c.s.backing, n, c.s.len);
    if n in c.s.online && r < c.s.len {
      ShiftBalances(c, n, r, x, q);
    } else {
      assert At(Next(c, Change(Gone(n))), x, q);
    }
  }

  lemma ShiftBalances(c: Cast, n: id, r: nat, x: id, q: nat)
    requires Shaped(c) && c.shared && n in c.s.online && n in c.s.fired && n != x && At(c, x, q)
    requires r == IndexOf(c.s.backing, n, c.s.len) < c.s.len
    ensures var c' := Next(c, Change(Gone(n)));
            Listed(c', x) && |c'.slots| == |c.slots| && c'.len == c.len && c'.handed == c.handed
            && Account(c', x) == Account(c, x) + Gain(c, Change(Gone(n)), x)
  {
    hide Copies, IndexOf, Valid;
    var c', i := Next(c, Change(Gone(n))), |c.handed|;
    assert forall i, j :: 0 <= i < j < c.s.len ==> c.s.backing[i] != c.s.backing[j] by { ValidIsDistinct(c.s); }
    ShiftCopies(c.s.backing, r, c.s.len, q, i, c.len, x);
    assert c'.slots == ShiftLeft(c.s.backing, r, c.s.len);
    assert At(c', x, if r < q then q - 1 else q);
  }

  lemma ValidIsDistinct(s: State)
    requires Valid(s)
    ensures s.len <= |s.backing| && forall i, j :: 0 <= i < j < s.len ==> s.backing[i] != s.backing[j]
  {
  }

  /** Shifting the live part over place `r` moves `x` from place `q`; when it was the last one a
      copy stays behind. */
  lemma ShiftCopies(a: seq<id>, r: nat, len: nat, q: nat, lo: nat, hi: nat, x: id)
    requires r < len <= |a| && q < len && q < hi <= |a| && q != r && a[q] == x
    requires forall i, j :: 0 <= i < j < len ==> a[i] != a[j]
    ensures var b := ShiftLeft(a, r, len);
            && b[if r < q then q - 1 else q] == x
            && Copies(b, lo, hi, x) == Copies(a, lo, hi, x)
                 + if r < q == len - 1 && lo < q then 1 else if r < q < len - 1 && lo == q then -1 else 0
  {
    hide Copies;
    var b := ShiftLeft(a, r, len);
    if r < q {
      var a1 := a[q - 1 := x];
      CopiesPut(a, q - 1, x, lo, hi, x);
      if q == len - 1 {
        CopiesAgree(a1, b, lo, hi, x);
      } else {
        var a2 := a1[q := a[q + 1]];
        CopiesPut(a1, q, a[q + 1], lo, hi, x);
        CopiesAgree(a2, b, lo, hi, x);
      }
    } else {
      CopiesAgree(a, b, lo, hi, x);
    }
  }

  lemma AcceptBalances(c: Cast, n: id, spare: nat, x: id, q: nat)
    requires Shaped(c) && c.shared && Enabled(c, Change(Accept(n, spare))) && n != x && At(c, x, q)
    ensures var c', step := Next(c, Change(Accept(n, spare))), Change(Accept(n, spare));
            && Shaped(c') && Account(c', x) == Account(c, x) + Gain(c, step, x) && (c'.shared ==> Listed(c', x))
  {
    hide Copies;
    var c' := Next(c, Change(Accept(n, spare)));
    Groups.NextKeeps(c.s, Accept(n, spare));
    if c.s.len < |c.s.backing| {
      CopiesPut(c.s.backing, c.s.len, n, |c.handed|, c.len, x);
      assert At(c', x, q);
    }
  }

  ghost predicate Tracked(c: Cast, x: id, due: int) {
    && Shaped(c) && x in c.s.fired
    && (x in c.s.online ==> (c.shared ==> Listed(c, x)) && Account(c, x) == due)
  }

  /** Whatever the step, what is due to a node that stays changes by the gain alone. */
  lemma StepBalances(c: Cast, step: Step, x: id, due: int)
    requires Tracked(c, x, due) && Enabled(c, step)
    ensures Tracked(Next(c, step), x, due + Gain(c, step, x))
  {
    hide Account, Listed;
    match step {
      case Read =>
        ReadBalances(c, x);
        SamePlaces(c, Next(c, Read), x);
      case Change(g) => ChangeBalances(c, g, x, due);
      case Drop =>
        SameSlots(c, Next(c, Drop), x);
    }
  }

  lemma SamePlaces(c: Cast, c': Cast, x: id)
    requires c'.s == c.s && c'.len == c.len
    ensures Listed(c, x) <==> Listed(c', x)
  {
    if q: nat :| At(c, x, q) { assert At(c', x, q); }
    if q: nat :| At(c', x, q) { assert At(c, x, q); }
  }

  lemma SameSlots(c: Cast, c': Cast, x: id)
    requires |c.handed| <= c.len <= |c.slots| && c'.slots == c.slots && c'.len == c.len && c'.handed == c.handed
    ensures Account(c', x) == Account(c, x)
  {
  }

  lemma ChangeBalances(c: Cast, g: Groups.Step, x: id, due: int)
    requires Tracked(c, x, due) && Enabled(c, Change(g))
    ensures Tracked(Next(c, Change(g)), x, due + Gain(c, Change(g), x))
  {
    hide Account, Listed, Gain;
    var c' := Next(c, Change(g));
    ChangeKeepsShape(c, g, x);
    if x in c'.s.online {
      if c.shared {
        ListedAt(c, x);
        var q: nat :| At(c, x, q);
        match g {
          case Gone(n) => GoneBalances(c, n, x, q);
          case Accept(n, spare) => AcceptBalances(c, n, spare, x, q);
          case Count =>
            NoGain(c, Change(g), x);
            SameSlots(c, c', x);
            StillAt(c, c', x, q);
        }
      } else {
        NoGain(c, Change(g), x);
        SameSlots(c, c', x);
      }
    }
  }

  lemma ChangeKeepsShape(c: Cast, g: Groups.Step, x: id)
    requires Shaped(c) && Enabled(c, Change(g)) && x in c.s.fired
    ensures var c' := Next(c, Change(g));
            && Shaped(c') && x in c'.s.fired
            && (x in c'.s.online ==> x in c.s.online && g != Gone(x) && !(g.Accept? && g.n == x))
  {
    Groups.NextKeeps(c.s, g);
  }

  lemma NoGain(c: Cast, step: Step, x: id)
    requires !c.shared || step == Change(Count)
    ensures Gain(c, step, x) == 0
  {
  }

  lemma ListedAt(c: Cast, x: id)
    requires Listed(c, x)
    ensures exists q: nat :: At(c, x, q)
  {
  }

  lemma StillAt(c: Cast, c': Cast, x: id, q: nat)
    requires At(c, x, q) && c'.s.backing == c.s.backing && c'.s.len == c.s.len && c'.len == c.len
    ensures Listed(c', x)
  {
    assert At(c', x, q);
  }

  lemma StartTracked(s: State, x: id)
    requires Valid(s) && x in Members(s)
    ensures Tracked(Start(s), x, 1)
  {
    var c := Start(s);
    var q: nat :| q < s.len && s.backing[q] == x;
    assert At(c, x, q);
    CopiesOnce(s.backing, 0, s.len, q, x);
  }

  lemma {:induction false} RunTracks(cs: seq<Cast>, steps: seq<Step>, x: id, i: nat)
    requires IsRun(cs, steps) && x in Members(cs[0].s) && i < |cs|
    ensures Tracked(cs[i], x, 1 + Total(cs, steps, x, i))
    decreases i
  {
    hide Tracked, Next, Enabled, Gain;
    if i == 0 {
      StartTracked(cs[0].s, x);
    } else {
      RunTracks(cs, steps, x, i - 1);
      assert cs[i - 1 + 1] == Next(cs[i - 1], steps[i - 1]);
      StepBalances(cs[i - 1], steps[i - 1], x, 1 + Total(cs, steps, x, i - 1));
    }
  }

  /** In every fan-out, whoever comes and goes meanwhile, a listed node that stays is handed the
      event once, once more for each time it was doubled, and once less for each time it was
      skipped or overwritten. */
  lemma HandedExactly(cs: seq<Cast>, steps: seq<Step>, x: id)
    requires IsRun(cs, steps) && x in Members(cs[0].s)
    requires var c := cs[|steps|]; |c.handed| == c.len && x in c.s.online
    ensures multiset(cs[|steps|].handed)[x] == 1 + Total(cs, steps, x, |steps|)
  {
    RunTracks(cs, steps, x, |steps|);
  }

  // ---- while nobody connects ----

  predicate NoAccept(step: Step) {
    step.Change? ==> !step.g.Accept?
  }

  /** Where a step that is not an accept takes `x`, and what its gain says of the place. */
  lemma PlaceAfter(c: Cast, step: Step, x: id, q: nat) returns (q': nat)
    requires Shaped(c) && c.shared && Enabled(c, step) && NoAccept(step) && At(c, x, q)
    requires x in Next(c, step).s.online && Next(c, step).shared
    ensures At(Next(c, step), x, q') && q' <= q && |c.handed| <= |Next(c, step).handed|
    ensures q == c.s.len - 1 ==> q' == Next(c, step).s.len - 1
    ensures Gain(c, step, x) > 0 ==> |c.handed| < q == c.s.len - 1
    ensures Gain(c, step, x) < 0 ==> q' < |c.handed| == q < c.s.len - 1
  {
    hide Valid, IndexOf, ShiftLeft;
    var c' := Next(c, step);
    ValidIsDistinct(c.s);
    q' := q;
    if step.Change? && step.g.Gone? {
      var r := IndexOf(c.s.backing, step.g.n, c.s.len);
      if step.g.n in c.s.online && r < c.s.len {
        ShiftPlace(c.s.backing, r, c.s.len, q);
        q' := if r < q then q - 1 else q;
      }
    }
    assert At(c', x, q');
  }

  lemma ShiftPlace(a: seq<id>, r: nat, len: nat, q: nat)
    requires r < len <= |a| && q < len && q != r
    ensures ShiftLeft(a, r, len)[if r < q then q - 1 else q] == a[q]
  {
  }

  ghost predicate Untouched(cs: seq<Cast>, steps: seq<Step>, x: id, i: nat)
    requires i <= |steps| <= |cs|
  {
    forall k :: 0 <= k < i ==> !Doubles(cs[k], steps[k], x) && !Skips(cs[k], steps[k], x)
  }

  /** A node that was skipped stays behind the reader and one that was doubled stays last, so
      the two do not make up for each other. */
  ghost predicate Fate(c: Cast, x: id, total: int) {
    c.shared ==> exists q: nat :: At(c, x, q) && (total < 0 ==> q < |c.handed|) && (total > 0 ==> q == c.s.len - 1)
  }

  lemma FateAfter(c: Cast, step: Step, x: id, total: int)
    requires Shaped(c) && Enabled(c, step) && NoAccept(step) && x in Next(c, step).s.online && Fate(c, x, total)
    ensures Fate(Next(c, step), x, total + Gain(c, step, x))
    ensures total + Gain(c, step, x) == 0 <==> total == 0 == Gain(c, step, x)
  {
    hide Gain, Shaped;
    if c.shared {
      var q: nat :| At(c, x, q) && (total < 0 ==> q < |c.handed|) && (total > 0 ==> q == c.s.len - 1);
      if Next(c, step).shared {
        var q' := PlaceAfter(c, step, x, q);
      } else {
        DropGains(c, step, x);
      }
    } else {
      DropGains(c, step, x);
    }
  }

  lemma DropGains(c: Cast, step: Step, x: id)
    requires Enabled(c, step) && NoAccept(step) && !Next(c, step).shared
    ensures Gain(c, step, x) == 0
  {
  }

  lemma {:induction false} Fates(cs: seq<Cast>, steps: seq<Step>, x: id, i: nat)
    requires IsRun(cs, steps) && x in Members(cs[0].s) && i < |cs| && x in cs[i].s.online
    requires forall k :: 0 <= k < |steps| ==> NoAccept(steps[k])
    ensures Fate(cs[i], x, Total(cs, steps, x, i))
    ensures Total(cs, steps, x, i) == 0 <==> Untouched(cs, steps, x, i)
    decreases i
  {
    hide Gain, Fate, Next, Enabled;
    if i == 0 {
      StartFate(cs[0].s, x);
    } else {
      var c, step := cs[i - 1], steps[i - 1];
      assert cs[i - 1 + 1] == Next(c, step);
      RunTracks(cs, steps, x, i - 1);
      OnlineBefore(c, step, x);
      Fates(cs, steps, x, i - 1);
      FateAfter(c, step, x, Total(cs, steps, x, i - 1));
      GainIsZero(c, step, x);
    }
  }

  lemma GainIsZero(c: Cast, step: Step, x: id)
    requires NoAccept(step)
    ensures Gain(c, step, x) == 0 <==> !Doubles(c, step, x) && !Skips(c, step, x)
  {
  }

  lemma OnlineBefore(c: Cast, step: Step, x: id)
    requires x in c.s.fired && Enabled(c, step) && x in Next(c, step).s.online
    ensures x in c.s.online
  {
  }

  lemma StartFate(s: State, x: id)
    requires Valid(s) && x in Members(s)
    ensures Fate(Start(s), x, 0)
  {
    var q: nat :| q < s.len && s.backing[q] == x;
    assert At(Start(s), x, q);
  }

  /** With any number of nodes leaving and none joining, a listed node that stays is handed the
      event exactly once if and only if no step doubled or skipped it. */
  lemma HandedOnceIff(cs: seq<Cast>, steps: seq<Step>, x: id)
    requires IsRun(cs, steps) && x in Members(cs[0].s) && forall k :: 0 <= k < |steps| ==> NoAccept(steps[k])
    requires var c := cs[|steps|]; |c.handed| == c.len && x in c.s.online
    ensures multiset(cs[|steps|].handed)[x] == 1 <==> Untouched(cs, steps, x, |steps|)
  {
    HandedExactly(cs, steps, x);
    Fates(cs, steps, x, |steps|);
  }

  /** A step that neither adds nor removes a node. */
  predicate Calm(step: Step) {
    step.Read? || step.Drop? || step == Change(Count)
  }

  lemma {:induction false} CalmKeeps(cs: seq<Cast>, steps: seq<Step>, i: nat, j: nat)
    requires IsRun(cs, steps) && i <= j < |cs| && forall k :: i <= k < j ==> Calm(steps[k])
    ensures cs[j].s.online == cs[i].s.online && cs[j].s.fired == cs[i].s.fired
    ensures cs[j].shared ==> cs[i].shared && cs[j].s.backing == cs[i].s.backing && cs[j].s.len == cs[i].s.len
    decreases j
  {
    if i < j {
      CalmKeeps(cs, steps, i, j - 1);
      assert cs[j - 1 + 1] == Next(cs[j - 1], steps[j - 1]);
    }
  }

  /** When just one listed node leaves, every other one is handed the event exactly once if and
      only if it was the last in the list, or at most the last one was still to be read, or
      the list had been replaced. */
  lemma OneLeavesIff(cs: seq<Cast>, steps: seq<Step>, t: nat, r: nat)
    requires IsRun(cs, steps) && |cs[|steps|].handed| == cs[|steps|].len && t < |steps|
    requires r < |Members(cs[0].s)| && steps[t] == Change(Gone(Members(cs[0].s)[r]))
    requires forall k :: 0 <= k < |steps| && k != t ==> Calm(steps[k])
    ensures var g, c := Members(cs[0].s), cs[t];
            && ((forall x :: x in g && x != g[r] ==> multiset(cs[|steps|].handed)[x] == 1)
                <==> r == |g| - 1 || |c.handed| >= |g| - 1 || !c.shared)
  {
    var g, c := Members(cs[0].s), cs[t];
    CalmKeeps(cs, steps, 0, t);
    assert cs[t + 1] == Next(c, steps[t]);
    CalmKeeps(cs, steps, t + 1, |steps|);
    assert g[r] in c.s.online && cs[|steps|].s.online == cs[0].s.online - {g[r]};
    SlidesIff(cs[0].s, c, r);
    forall x | x in g && x != g[r]
      ensures multiset(cs[|steps|].handed)[x] == 1 <==> !Doubles(c, steps[t], x) && !Skips(c, steps[t], x)
    {
      HandedOnceIff(cs, steps, x);
    }
    if Slides(c, steps[t]) {
      assert g[|g| - 1] in g && Doubles(c, steps[t], g[|g| - 1]);
    }
  }

  lemma SlidesIff(s: State, c: Cast, r: nat)
    requires Valid(s) && r < s.len && c.s.online == s.online
    requires c.shared ==> c.s.backing == s.backing && c.s.len == s.len
    ensures Slides(c, Change(Gone(s.backing[r]))) <==> c.shared && r < s.len - 1 && |c.handed| < s.len - 1
  {
    if c.shared { FoundAt(s.backing, s.backing[r], s.len, r); }
  }

  /** The loop reads on to its end undisturbed. */
  lemma ReadsOut(cs: seq<Cast>, steps: seq<Step>) returns (cs': seq<Cast>, steps': seq<Step>)
    requires IsRun(cs, steps) && var c := cs[|steps|]; |c.handed| <= c.len <= |c.slots|
    ensures IsRun(cs', steps') && cs'[0] == cs[0]
    ensures var c := cs[|steps|]; cs'[|steps'|] == c.(handed := c.handed + c.slots[|c.handed|..c.len])
    decreases cs[|steps|].len - |cs[|steps|].handed|
  {
    var c := cs[|steps|];
    if |c.handed| == c.len {
      cs', steps' := cs, steps;
      assert c.handed + c.slots[c.len..c.len] == c.handed;
    } else {
      cs', steps' := ReadsOut(cs + [Next(c, Read)], steps + [Read]);
      assert c.slots[|c.handed|..c.len] == [c.slots[|c.handed|]] + c.slots[|c.handed| + 1..c.len];
    }
  }

  /** For every list of three or more: the first node leaves when it has been read, the second
      one, still connected, never gets the event, and the last one gets it twice. */
  lemma FirstLeavesEarly(s: State) returns (cs: seq<Cast>, steps: seq<Step>)
    requires Valid(s) && s.len >= 3
    ensures IsRun(cs, steps) && cs[0] == Start(s) && cs[|steps|].s.online == s.online - {s.backing[0]}
    ensures var g := Members(s); cs[|steps|].handed == [g[0]] + g[2..] + [g[|g| - 1]]
    ensures var g := Members(s);
            multiset(cs[|steps|].handed)[g[1]] == 0 && multiset(cs[|steps|].handed)[g[|g| - 1]] == 2
  {
    hide Next, Enabled, Valid;
    ValidIsDistinct(s);
    FirstTwoSteps(s);
    var g := Members(s);
    var c1 := Next(Start(s), Read);
    var cs2, steps2 := [Start(s), c1, Next(c1, Change(Gone(s.backing[0])))], [Read, Change(Gone(s.backing[0]))];
    assert IsRun(cs2, steps2);
    cs, steps := ReadsOut(cs2, steps2);
    assert cs[|steps|].handed == [g[0]] + (g[2..] + [g[|g| - 1]]);
    CountsOfFirst(g);
  }

  lemma FirstTwoSteps(s: State)
    requires Valid(s) && s.len >= 3
    ensures Enabled(Start(s), Read) && Enabled(Next(Start(s), Read), Change(Gone(s.backing[0])))
    ensures var g, c := Members(s), Next(Next(Start(s), Read), Change(Gone(s.backing[0])));
            && c.s.online == s.online - {g[0]} && c.handed == [g[0]] && c.len == s.len <= |c.slots|
            && c.slots[1..c.len] == g[2..] + [g[|g| - 1]]
  {
    FoundAt(s.backing, s.backing[0], s.len, 0);
    var c := Next(Next(Start(s), Read), Change(Gone(s.backing[0])));
    assert c.slots == ShiftLeft(s.backing, 0, s.len);
  }

  lemma CountsOfFirst(g: seq<id>)
    requires |g| >= 3 && Distinct(g)
    ensures var h := [g[0]] + g[2..] + [g[|g| - 1]];
            multiset(h)[g[1]] == 0 && multiset(h)[g[|g| - 1]] == 2
  {
    var h, mid := [g[0]] + g[2..] + [g[|g| - 1]], g[2..|g| - 1];
    assert g[2..] == mid + [g[|g| - 1]];
    assert g[1] !in h;
    assert h == [g[0]] + mid + [g[|g| - 1]] + [g[|g| - 1]];
    assert g[|g| - 1] !in [g[0]] + mid;
  }
}
