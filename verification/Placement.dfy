/** Which shard serves a resolver context in a region. */
module Placement {
  import opened Text
  import opened Sorting

  type UID = string

  datatype Binding = Binding(context: UID, region: string, shard: string, live: bool)

  /** `score` is the rendezvous hash of a context and a shard in a region; hashes are never empty. */
  datatype World = World(score: (UID, string, string) -> string)

  ghost predicate Hashes(w: World) {
    forall context, region, shard :: w.score(context, region, shard) != ""
  }

  // ----- the choice ---------------------------------------------------------

  predicate Preserves(b: Binding, context: UID, region: string, shards: seq<string>) {
    b.context == context && b.region == region && b.live && b.shard in shards
  }

  /** The least shard of a live binding that is still configured. */
  function Preserved(bindings: seq<Binding>, context: UID, region: string, shards: seq<string>): (r: Option<string>)
    ensures r.None? <==> forall b :: b in bindings ==> !Preserves(b, context, region, shards)
    ensures r.Some? ==> exists b :: b in bindings && Preserves(b, context, region, shards) && b.shard == r.value
  {
    if bindings == [] then None
    else
      var before, b := Preserved(bindings[..|bindings| - 1], context, region, shards), bindings[|bindings| - 1];
      assert bindings == bindings[..|bindings| - 1] + [b];
      if Preserves(b, context, region, shards) && (before.None? || !Leq(before.value, b.shard)) then Some(b.shard) else before
  }

  /** The first shard of highest score. */
  function Best(w: World, context: UID, region: string, shards: seq<string>): (r: string)
    requires shards != []
    ensures r in shards
    ensures forall s :: s in shards ==> Leq(w.score(context, region, s), w.score(context, region, r))
  {
    var last := shards[|shards| - 1];
    if |shards| == 1 then
      LeqReflexive(w.score(context, region, last));
      last
    else
      var before := Best(w, context, region, shards[..|shards| - 1]);
      assert shards == shards[..|shards| - 1] + [last];
      LeqTotal(w.score(context, region, last), w.score(context, region, before));
      LeqReflexive(w.score(context, region, last));
      if Leq(w.score(context, region, last), w.score(context, region, before)) then before
      else
        assert forall s :: s in shards[..|shards| - 1] ==> Leq(w.score(context, region, s), w.score(context, region, last)) by {
          forall s | s in shards[..|shards| - 1] ensures Leq(w.score(context, region, s), w.score(context, region, last)) {
            LeqTransitive(w.score(context, region, s), w.score(context, region, before), w.score(context, region, last));
          }
        }
        last
  }

  function Select(w: World, bindings: seq<Binding>, context: UID, region: string, shards: seq<string>): string
    requires shards != []
  {
    var kept := Preserved(bindings, context, region, Sort(Leq, shards));
    if kept.Some? then kept.value else Best(w, context, region, Sort(Leq, shards))
  }

  method FindPreserved(bindings: seq<Binding>, context: UID, region: string, candidates: seq<string>) returns (preserved: Option<string>)
    ensures preserved == Preserved(bindings, context, region, candidates)
  {
    preserved := None;
    for i := 0 to |bindings|
      invariant preserved == Preserved(bindings[..i], context, region, candidates)
    {
      var b := bindings[i];
      assert bindings[..i + 1][..i] == bindings[..i];
      if b.context == context && b.region == region && b.live {
        if b.shard in candidates && (preserved.None? || !Leq(preserved.value, b.shard)) {
          preserved := Some(b.shard);
        }
      }
    }
    assert bindings[..|bindings|] == bindings;
  }

  lemma BestNext(w: World, context: UID, region: string, shards: seq<string>, n: nat)
    requires 0 < n < |shards|
    ensures var before := Best(w, context, region, shards[..n]);
            Best(w, context, region, shards[..n + 1]) ==
            if Leq(w.score(context, region, shards[n]), w.score(context, region, before)) then before else shards[n]
  {
    assert shards[..n + 1][..n] == shards[..n];
  }

  method FindBest(w: World, context: UID, region: string, candidates: seq<string>) returns (best: string)
    requires candidates != [] && Hashes(w)
    ensures best == Best(w, context, region, candidates)
  {
    best := candidates[0];
    var bestScore := "";
    for i := 0 to |candidates|
      invariant i == 0 ==> bestScore == ""
      invariant i > 0 ==> best == Best(w, context, region, candidates[..i]) && bestScore == w.score(context, region, best)
    {
      if i > 0 { BestNext(w, context, region, candidates, i); }
      var score := w.score(context, region, candidates[i]);
      if bestScore == "" || !Leq(score, bestScore) {
        best, bestScore := candidates[i], score;
      }
    }
    assert candidates[..|candidates|] == candidates;
  }

  /** One region of selectServingTargets. */
  method SelectServingTarget(w: World, bindings: seq<Binding>, context: UID, region: string, shards: seq<string>) returns (shard: string)
    requires shards != [] && Hashes(w)
    ensures shard == Select(w, bindings, context, region, shards)
  {
    var candidates := Sort(Leq, shards);
    var preserved := FindPreserved(bindings, context, region, candidates);
    if preserved.Some? {
      return preserved.value;
    }
    shard := FindBest(w, context, region, candidates);
  }

  // ----- adding a shard -----------------------------------------------------

  /** Two choices of highest score from one list order: the first one. */
  lemma {:induction false} BestIsFirst(w: World, context: UID, region: string, shards: seq<string>, n: nat)
    requires n < |shards| && (forall s :: s in shards ==> Leq(w.score(context, region, s), w.score(context, region, shards[n])))
    requires forall i :: 0 <= i < n ==> w.score(context, region, shards[i]) != w.score(context, region, shards[n])
    ensures Best(w, context, region, shards) == shards[n]
  {
    var last := |shards| - 1;
    if last > 0 {
      var before := shards[..last];
      assert shards[last] in shards && forall s :: s in before ==> s in shards;
      if n < last {
        BestIsFirst(w, context, region, before, n);
      } else {
        LastIsBest(w, context, region, shards);
      }
    }
  }

  lemma LastIsBest(w: World, context: UID, region: string, shards: seq<string>)
    requires |shards| > 1
    requires forall s :: s in shards ==> Leq(w.score(context, region, s), w.score(context, region, shards[|shards| - 1]))
    requires forall i :: 0 <= i < |shards| - 1 ==> w.score(context, region, shards[i]) != w.score(context, region, shards[|shards| - 1])
    ensures Best(w, context, region, shards) == shards[|shards| - 1]
  {
    var last, before := shards[|shards| - 1], shards[..|shards| - 1];
    var b := Best(w, context, region, before);
    var i :| 0 <= i < |before| && before[i] == b;
    assert shards[i] in shards;
    if Leq(w.score(context, region, last), w.score(context, region, b)) {
      LeqAntisymmetric(w.score(context, region, last), w.score(context, region, b));
    }
  }

  lemma {:induction false} BestIndex(w: World, context: UID, region: string, shards: seq<string>) returns (n: nat)
    requires shards != []
    ensures n < |shards| && shards[n] == Best(w, context, region, shards)
    ensures forall i :: 0 <= i < n ==> w.score(context, region, shards[i]) != w.score(context, region, shards[n])
  {
    var last := |shards| - 1;
    if last == 0 {
      n := 0;
    } else {
      n := BestIndex(w, context, region, shards[..last]);
      var b := Best(w, context, region, shards[..last]);
      if !Leq(w.score(context, region, shards[last]), w.score(context, region, b)) {
        n := last;
        forall i | 0 <= i < last ensures w.score(context, region, shards[i]) != w.score(context, region, shards[last]) {
          assert shards[..last][i] in shards[..last];
        }
      }
    }
  }

  /** Inserting a shard moves the choice only to that shard. */
  lemma InsertedBest(w: World, context: UID, region: string, a: seq<string>, x: string, b: seq<string>)
    requires a + b != []
    ensures Best(w, context, region, a + [x] + b) == x || Best(w, context, region, a + [x] + b) == Best(w, context, region, a + b)
  {
    var more, fewer := a + [x] + b, a + b;
    var n := BestIndex(w, context, region, more);
    if n != |a| {
      var m := if n < |a| then n else n - 1;
      assert fewer[m] == more[n];
      forall i | 0 <= i < m ensures w.score(context, region, fewer[i]) != w.score(context, region, fewer[m]) {
        assert fewer[i] == more[if i < |a| then i else i + 1];
      }
      forall s | s in fewer ensures s in more {}
      BestIsFirst(w, context, region, fewer, m);
    }
  }

  /** With no live binding, adding a shard changes the choice only to the new shard. */
  lemma NewShardOnly(w: World, bindings: seq<Binding>, context: UID, region: string, shards: seq<string>, x: string)
    requires shards != [] && forall b :: b in bindings ==> !(b.context == context && b.region == region && b.live)
    ensures Select(w, bindings, context, region, [x] + shards) == x
            || Select(w, bindings, context, region, [x] + shards) == Select(w, bindings, context, region, shards)
  {
    var s := Sort(Leq, shards);
    assert ([x] + shards)[1..] == shards;
    var n := InsertSplits(Leq, x, s);
    assert s == s[..n] + s[n..];
    InsertedBest(w, context, region, s[..n], x, s[n..]);
  }

  // ----- runs ---------------------------------------------------------------

  /** Bindings by name and the configured shards of each region. */
  datatype System = System(bindings: map<string, Binding>, shards: map<string, seq<string>>)

  datatype Access = Access(name: string, context: UID, region: string)

  /** One pass over access bindings works from the bindings listed when it starts. */
  datatype Step =
    | AddShard(region: string, shard: string)
    | Pass(listed: seq<Binding>, accesses: seq<Access>)
    | Withdraw(name: string)
    | Remove(name: string)

  /** A binding's placement is fixed when it is created; a write that would move it is refused. */
  function Bind(w: World, s: System, listed: seq<Binding>, a: Access): System {
    if a.region !in s.shards || s.shards[a.region] == [] then s
    else
      var shard := Select(w, listed, a.context, a.region, s.shards[a.region]);
      if a.name in s.bindings && s.bindings[a.name].(live := true) != Binding(a.context, a.region, shard, true) then s
      else s.(bindings := s.bindings[a.name := Binding(a.context, a.region, shard, true)])
  }

  function BindAll(w: World, s: System, listed: seq<Binding>, accesses: seq<Access>): System {
    if accesses == [] then s
    else Bind(w, BindAll(w, s, listed, accesses[..|accesses| - 1]), listed, accesses[|accesses| - 1])
  }

  ghost predicate Lists(s: System, listed: seq<Binding>) {
    forall b :: b in listed <==> b in s.bindings.Values
  }

  ghost function Next(w: World, s: System, step: Step): System {
    match step
    case AddShard(region, shard) =>
      s.(shards := s.shards[region := [shard] + if region in s.shards then s.shards[region] else []])
    case Pass(listed, accesses) => if Lists(s, listed) then BindAll(w, s, listed, accesses) else s
    case Withdraw(n) => if n in s.bindings then s.(bindings := s.bindings[n := s.bindings[n].(live := false)]) else s
    case Remove(n) => if n in s.bindings && !s.bindings[n].live then s.(bindings := s.bindings - {n}) else s
  }

  ghost function After(w: World, steps: seq<Step>): System {
    if steps == [] then System(map[], map[]) else Next(w, After(w, steps[..|steps| - 1]), steps[|steps| - 1])
  }

  /** Live bindings of a context in a region share one configured shard. */
  ghost predicate Agree(s: System) {
    && (forall n :: n in s.bindings && s.bindings[n].live ==>
          s.bindings[n].region in s.shards && s.bindings[n].shard in s.shards[s.bindings[n].region])
    && (forall m, n | m in s.bindings && n in s.bindings && s.bindings[m].live && s.bindings[n].live ::
          s.bindings[m].context == s.bindings[n].context && s.bindings[m].region == s.bindings[n].region ==>
            s.bindings[m].shard == s.bindings[n].shard)
  }

  /** Live bindings sit where the listed bindings and the configuration put them. */
  ghost predicate Placed(w: World, s: System, listed: seq<Binding>) {
    forall n :: n in s.bindings && s.bindings[n].live ==>
      var b := s.bindings[n];
      b.region in s.shards && s.shards[b.region] != [] && b.shard == Select(w, listed, b.context, b.region, s.shards[b.region])
  }

  lemma SelectConfigured(w: World, listed: seq<Binding>, context: UID, region: string, shards: seq<string>)
    requires shards != []
    ensures Select(w, listed, context, region, shards) in shards
  {
    SameMembers(Sort(Leq, shards), shards);
  }

  lemma AgreedPlaced(w: World, s: System, listed: seq<Binding>)
    requires Agree(s) && Lists(s, listed)
    ensures Placed(w, s, listed)
  {
    forall n | n in s.bindings && s.bindings[n].live
      ensures var b := s.bindings[n];
              b.region in s.shards && s.shards[b.region] != [] && b.shard == Select(w, listed, b.context, b.region, s.shards[b.region])
    {
      var b := s.bindings[n];
      SameMembers(Sort(Leq, s.shards[b.region]), s.shards[b.region]);
      assert b in listed && Preserves(b, b.context, b.region, Sort(Leq, s.shards[b.region]));
    }
  }

  lemma {:induction false} PassPlaces(w: World, s: System, listed: seq<Binding>, accesses: seq<Access>)
    requires Placed(w, s, listed)
    ensures Placed(w, BindAll(w, s, listed, accesses), listed) && BindAll(w, s, listed, accesses).shards == s.shards
  {
    if accesses != [] {
      PassPlaces(w, s, listed, accesses[..|accesses| - 1]);
    }
  }

  lemma PlacedAgree(w: World, s: System, listed: seq<Binding>)
    requires Placed(w, s, listed)
    ensures Agree(s)
  {
    forall n | n in s.bindings && s.bindings[n].live
      ensures s.bindings[n].region in s.shards && s.bindings[n].shard in s.shards[s.bindings[n].region]
    {
      var b := s.bindings[n];
      SelectConfigured(w, listed, b.context, b.region, s.shards[b.region]);
    }
  }

  /** Whatever shards are added, the live bindings of a context in a region never part. */
  lemma {:induction false} ShardsAgree(w: World, steps: seq<Step>)
    ensures Agree(After(w, steps))
  {
    if steps != [] {
      var s, step := After(w, steps[..|steps| - 1]), steps[|steps| - 1];
      ShardsAgree(w, steps[..|steps| - 1]);
      if step.Pass? && Lists(s, step.listed) {
        AgreedPlaced(w, s, step.listed);
        PassPlaces(w, s, step.listed, step.accesses);
        PlacedAgree(w, Next(w, s, step), step.listed);
      }
    }
  }

  // ----- reactivation -------------------------------------------------------

  /** The shard the live bindings of a context in a region share, if there are any. */
  ghost predicate ServedOn(s: System, context: UID, region: string, shard: string) {
    exists n :: n in s.bindings && s.bindings[n] == Binding(context, region, shard, true)
  }

  ghost predicate Served(s: System, context: UID, region: string) {
    exists n :: n in s.bindings && s.bindings[n].context == context && s.bindings[n].region == region && s.bindings[n].live
  }

  /** A new binding would be placed where the others are or, without others, on the shard of highest score. */
  ghost predicate Selected(w: World, s: System, context: UID, region: string, shard: string)
    requires region in s.shards && s.shards[region] != []
  {
    if Served(s, context, region) then ServedOn(s, context, region, shard)
    else shard == Best(w, context, region, Sort(Leq, s.shards[region]))
  }

  lemma SelectIs(w: World, s: System, listed: seq<Binding>, context: UID, region: string, shard: string)
    requires Agree(s) && Lists(s, listed) && region in s.shards && s.shards[region] != []
    ensures Select(w, listed, context, region, s.shards[region]) == shard <==> Selected(w, s, context, region, shard)
  {
    var sorted := Sort(Leq, s.shards[region]);
    SameMembers(sorted, s.shards[region]);
    var kept := Preserved(listed, context, region, sorted);
    if Served(s, context, region) {
      var n :| n in s.bindings && s.bindings[n].context == context && s.bindings[n].region == region && s.bindings[n].live;
      assert s.bindings[n] in listed && Preserves(s.bindings[n], context, region, sorted);
      var b :| b in listed && Preserves(b, context, region, sorted) && b.shard == kept.value;
      var m :| m in s.bindings && s.bindings[m] == b;
      assert ServedOn(s, context, region, kept.value);
    } else {
      forall b | b in listed ensures !Preserves(b, context, region, sorted) {
        var m :| m in s.bindings && s.bindings[m] == b;
      }
    }
  }

  /** The access finds its own binding withdrawn, in a region that is served. */
  ghost predicate Withdrawn(s: System, a: Access) {
    && a.region in s.shards && s.shards[a.region] != []
    && a.name in s.bindings && s.bindings[a.name] == Binding(a.context, a.region, s.bindings[a.name].shard, false)
  }

  /**
   * In every reachable state, a pass over one access reactivates its withdrawn
   * binding if and only if the selection is still the shard the binding was
   * placed on.
   */
  lemma ReactivatedIff(w: World, steps: seq<Step>, listed: seq<Binding>, a: Access)
    requires var s := After(w, steps); Lists(s, listed) && Withdrawn(s, a)
    ensures var s, after := After(w, steps), After(w, steps + [Pass(listed, [a])]);
            && a.name in after.bindings
            && (after.bindings[a.name].live <==> Selected(w, s, a.context, a.region, s.bindings[a.name].shard))
            && (!after.bindings[a.name].live ==> after == s)
  {
    var s := After(w, steps);
    ShardsAgree(w, steps);
    SelectIs(w, s, listed, a.context, a.region, s.bindings[a.name].shard);
    assert (steps + [Pass(listed, [a])])[..|steps|] == steps;
    assert [a][..0] == [] && BindAll(w, s, listed, [a]) == Bind(w, s, listed, a);
  }

  /** Shards score as they are named. */
  const BY_NAME := World((context: UID, region: string, shard: string) => shard)

  const ACCESS := Access("n", "c", "r")

  function Bound(live: bool): Binding {
    Binding("c", "r", "a", live)
  }

  lemma BestOfTwo(shards: seq<string>)
    requires "b" in shards && forall s :: s in shards ==> s == "a" || s == "b"
    ensures Best(BY_NAME, "c", "r", shards) == "b"
  {
    var r := Best(BY_NAME, "c", "r", shards);
    assert Leq(BY_NAME.score("c", "r", "b"), BY_NAME.score("c", "r", r));
    assert "b"[0] == 'b' && "a"[0] == 'a' && !Leq("b", "a");
  }

  /** A shard is added and bound, the binding withdrawn, and a shard of higher score added. */
  lemma MovedOn()
    ensures After(BY_NAME, [AddShard("r", "a")]) == System(map[], map["r" := ["a"]])
    ensures After(BY_NAME, [AddShard("r", "a"), Pass([], [ACCESS])]) == System(map["n" := Bound(true)], map["r" := ["a"]])
    ensures After(BY_NAME, [AddShard("r", "a"), Pass([], [ACCESS]), Withdraw("n"), AddShard("r", "b")])
            == System(map["n" := Bound(false)], map["r" := ["b", "a"]])
  {
    var one := System(map[], map["r" := ["a"]]);
    assert [AddShard("r", "a")][..0] == [];
    assert ["a"] + [] == ["a"];
    assert After(BY_NAME, [AddShard("r", "a")]) == one;
    FirstBound(one);
    var two := [AddShard("r", "a"), Pass([], [ACCESS])];
    assert two[..1] == [AddShard("r", "a")];
    assert After(BY_NAME, two) == Next(BY_NAME, one, two[1]);
    var three := two + [Withdraw("n")];
    assert three[..2] == two;
    var four := three + [AddShard("r", "b")];
    assert four[..3] == three;
    assert ["b"] + ["a"] == ["b", "a"];
    assert four == [AddShard("r", "a"), Pass([], [ACCESS]), Withdraw("n"), AddShard("r", "b")];
  }

  lemma FirstBound(one: System)
    requires one == System(map[], map["r" := ["a"]])
    ensures Next(BY_NAME, one, Pass([], [ACCESS])) == System(map["n" := Bound(true)], map["r" := ["a"]])
  {
    SelectConfigured(BY_NAME, [], "c", "r", ["a"]);
    assert Lists(one, []);
    assert [ACCESS][..0] == [] && BindAll(BY_NAME, one, [], [ACCESS]) == Bind(BY_NAME, one, [], ACCESS);
  }

  /**
   * A withdrawn binding stays withdrawn once the selection has moved: here no
   * live binding is left and the shard added since has the higher score.
   */
  lemma StaysWithdrawn()
    ensures var steps := [AddShard("r", "a"), Pass([], [ACCESS]), Withdraw("n"), AddShard("r", "b"), Pass([Bound(false)], [ACCESS])];
            After(BY_NAME, steps) == System(map["n" := Bound(false)], map["r" := ["b", "a"]])
  {
    var steps := [AddShard("r", "a"), Pass([], [ACCESS]), Withdraw("n"), AddShard("r", "b")];
    MovedOn();
    SelectionMoved(After(BY_NAME, steps));
    ReactivatedIff(BY_NAME, steps, [Bound(false)], ACCESS);
    assert steps + [Pass([Bound(false)], [ACCESS])]
           == [AddShard("r", "a"), Pass([], [ACCESS]), Withdraw("n"), AddShard("r", "b"), Pass([Bound(false)], [ACCESS])];
  }

  lemma BestMoved(shards: seq<string>)
    requires shards == ["b", "a"]
    ensures Best(BY_NAME, "c", "r", Sort(Leq, shards)) == "b"
  {
    var sorted := Sort(Leq, shards);
    SameMembers(sorted, shards);
    assert "b" in shards && forall x :: x in shards ==> x == "a" || x == "b";
    BestOfTwo(sorted);
  }

  lemma OneWithdrawn(s: System, n: string, b: Binding)
    requires s.bindings == map[n := b] && !b.live
    ensures Lists(s, [b]) && !Served(s, b.context, b.region)
  {
    assert s.bindings.Values == {b} by { assert n in s.bindings; }
  }

  lemma SelectionMoved(s: System)
    requires s == System(map["n" := Bound(false)], map["r" := ["b", "a"]])
    ensures Lists(s, [Bound(false)]) && Withdrawn(s, ACCESS) && !Selected(BY_NAME, s, "c", "r", "a")
  {
    OneWithdrawn(s, "n", Bound(false));
    BestMoved(s.shards["r"]);
    assert "b"[0] != "a"[0];
  }
}
