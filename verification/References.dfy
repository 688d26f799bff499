/** Pinned references: a source keeps the lifetime it first resolved a name to. */
module References {
  import opened Text

  type UID = string

  datatype Ref = Ref(name: string, uid: UID, generation: int)

  const NO_REF := Ref("", "", 0)

  /** The stored pins of one source. `unverified` marks a state rebuilt after the original was lost. */
  datatype State = State(unverified: bool, references: map<string, Ref>)

  datatype Pin = Pin(ref: Ref, valid: bool)

  /** The pin for a selected name, given the stored one and what the name denotes now. */
  function PinNamedReference(name: string, previous: Ref, current: Ref): (p: Pin)
    ensures p.valid ==> p.ref == current && current.name == name && current.uid != ""
    ensures previous.name == name && previous.uid != "" ==> p.ref.uid == previous.uid || name == ""
  {
    if name == "" then Pin(NO_REF, false)
    else
      var kept := if previous.name != name then Ref(name, "", 0) else previous;
      if current.name != name || current.uid == "" || (kept.uid != "" && kept.uid != current.uid) then Pin(kept, false)
      else Pin(current, true)
  }

  function StoredRef(references: map<string, Ref>, key: string): Ref {
    if key in references then references[key] else NO_REF
  }

  function Resolved(references: map<string, Ref>, selected: map<string, Ref>): map<string, Ref> {
    map key | key in selected :: PinNamedReference(selected[key].name, StoredRef(references, key), selected[key]).ref
  }

  predicate AllValid(references: map<string, Ref>, selected: map<string, Ref>) {
    forall key | key in selected :: PinNamedReference(selected[key].name, StoredRef(references, key), selected[key]).valid
  }

  /** What a pass reports: the pins, and whether all of them are current. */
  datatype Report = Report(references: map<string, Ref>, current: bool)

  /** The state a pass loads: a source with resolved status but no state object is unverified. */
  function Loaded(state: Option<State>, hasStatus: bool): State {
    if state.Some? then state.value else State(hasStatus, map[])
  }

  /** The loop over the selected references. */
  method ResolveAll(references: map<string, Ref>, selected: map<string, Ref>) returns (resolved: map<string, Ref>, current: bool)
    ensures resolved == Resolved(references, selected) && current == AllValid(references, selected)
  {
    resolved, current := map[], true;
    var rest := selected.Keys;
    while rest != {}
      invariant rest <= selected.Keys && resolved.Keys == selected.Keys - rest
      invariant forall key :: key in resolved ==> resolved[key] == Resolved(references, selected)[key]
      invariant current == forall key | key in resolved :: PinNamedReference(selected[key].name, StoredRef(references, key), selected[key]).valid
    {
      var key :| key in rest;
      rest := rest - {key};
      var pin := PinNamedReference(selected[key].name, StoredRef(references, key), selected[key]);
      resolved := resolved[key := pin.ref];
      current := current && pin.valid;
    }
  }

  /** The object that holds the state of one source. */
  class Store {
    var state: Option<State>

    constructor ()
      ensures state == None
    {
      state := None;
    }

    /** Loads the state, pins what is selected and stores what changed. */
    method PinReferences(hasStatus: bool, selected: map<string, Ref>) returns (report: Report)
      modifies this
      ensures report == Reported(old(state), hasStatus, selected)
      ensures state == PinnedState(old(state), hasStatus, selected)
    {
      var loaded := Loaded(state, hasStatus);
      if loaded.unverified {
        if state.None? {
          state := Some(loaded);
        }
        return Report(loaded.references, false);
      }
      var resolved, current := ResolveAll(loaded.references, selected);
      if loaded.references != resolved {
        state := Some(loaded.(references := resolved));
      }
      return Report(resolved, current);
    }
  }

  function Reported(state: Option<State>, hasStatus: bool, selected: map<string, Ref>): Report {
    var loaded := Loaded(state, hasStatus);
    if loaded.unverified then Report(loaded.references, false)
    else Report(Resolved(loaded.references, selected), AllValid(loaded.references, selected))
  }

  function PinnedState(state: Option<State>, hasStatus: bool, selected: map<string, Ref>): Option<State> {
    var loaded := Loaded(state, hasStatus);
    if loaded.unverified then Some(loaded)
    else if loaded.references == Resolved(loaded.references, selected) then state
    else Some(loaded.(references := Resolved(loaded.references, selected)))
  }

  // ----- runs ---------------------------------------------------------------

  /** One source: its state object, whether its status was written, and what its passes reported. */
  datatype System = System(state: Option<State>, hasStatus: bool, reports: seq<Report>)

  /** A pass selects the names of the source; Lose is the loss of the state object. */
  datatype Step = Pass(selected: map<string, Ref>) | WriteStatus | Lose

  function Next(s: System, step: Step): System {
    match step
    case Pass(selected) =>
      System(PinnedState(s.state, s.hasStatus, selected), s.hasStatus,
             s.reports + [Reported(s.state, s.hasStatus, selected)])
    case WriteStatus => if s.reports == [] then s else s.(hasStatus := true)
    case Lose => s.(state := None)
  }

  function After(steps: seq<Step>): System {
    if steps == [] then System(None, false, []) else Next(After(steps[..|steps| - 1]), steps[|steps| - 1])
  }

  /** Every pass selects `name` for `key`; the API keeps a source's names fixed and non-empty. */
  ghost predicate Selects(steps: seq<Step>, key: string, name: string) {
    name != "" && forall i :: 0 <= i < |steps| && steps[i].Pass? ==> key in steps[i].selected && steps[i].selected[key].name == name
  }

  /** The UID a report resolves a key to; empty when it resolves to none. */
  function PinnedUid(r: Report, key: string): UID {
    StoredRef(r.references, key).uid
  }

  /** What the stored pin remembers of a reported UID. */
  predicate Remembers(s: System, key: string, name: string, uid: UID) {
    || uid == ""
    || (s.state.None? && s.hasStatus)
    || (s.state.Some? && s.state.value.unverified)
    || (s.state.Some? && StoredRef(s.state.value.references, key).uid == uid && StoredRef(s.state.value.references, key).name == name)
  }

  /** No two reports resolve the key to different UIDs. */
  ghost predicate Consistent(reports: seq<Report>, key: string) {
    forall i, j :: 0 <= i < j < |reports| ==>
      PinnedUid(reports[i], key) == "" || PinnedUid(reports[j], key) == "" || PinnedUid(reports[i], key) == PinnedUid(reports[j], key)
  }

  ghost predicate Sticks(s: System, key: string, name: string) {
    && (forall i :: 0 <= i < |s.reports| ==> Remembers(s, key, name, PinnedUid(s.reports[i], key)))
    && (s.state.Some? && s.state.value.unverified ==> s.state.value.references == map[])
    && Consistent(s.reports, key)
  }

  /** The pin a pass reports is the one remembered, or none, and it is remembered from then on. */
  lemma PassRemembers(s: System, key: string, name: string, selected: map<string, Ref>, uid: UID)
    requires name != "" && key in selected && selected[key].name == name && Remembers(s, key, name, uid)
    requires s.state.Some? && s.state.value.unverified ==> s.state.value.references == map[]
    ensures var after := Next(s, Pass(selected));
            var pinned := PinnedUid(after.reports[|s.reports|], key);
            && Remembers(after, key, name, uid) && Remembers(after, key, name, pinned)
            && (uid == "" || pinned == "" || pinned == uid)
  {
    var loaded := Loaded(s.state, s.hasStatus);
    if !loaded.unverified {
      assert key in Resolved(loaded.references, selected);
    }
  }

  lemma PassSticks(s: System, key: string, name: string, selected: map<string, Ref>)
    requires Sticks(s, key, name) && name != "" && key in selected && selected[key].name == name
    ensures Sticks(Next(s, Pass(selected)), key, name)
  {
    var after := Next(s, Pass(selected));
    PassRemembers(s, key, name, selected, "");
    forall i | 0 <= i < |s.reports|
      ensures Remembers(after, key, name, PinnedUid(after.reports[i], key))
      ensures PinnedUid(s.reports[i], key) == "" || PinnedUid(after.reports[|s.reports|], key) == ""
              || PinnedUid(after.reports[|s.reports|], key) == PinnedUid(s.reports[i], key)
    {
      assert after.reports[i] == s.reports[i];
      PassRemembers(s, key, name, selected, PinnedUid(s.reports[i], key));
    }
    assert after.reports == s.reports + [after.reports[|s.reports|]];
  }

  // ----- the shape of a run -------------------------------------------------

  /** A status is written once some pass has reported. */
  ghost predicate Written(steps: seq<Step>) {
    exists p, q :: 0 <= p < q < |steps| && steps[p].Pass? && steps[q].WriteStatus?
  }

  ghost predicate LostAfterPass(steps: seq<Step>) {
    exists p, q :: 0 <= p < q < |steps| && steps[p].Pass? && steps[q].Lose?
  }

  /** At step `k`, a pass follows a pass whose state was lost before any status was written. */
  ghost predicate ForgetsAt(steps: seq<Step>, k: nat)
    requires k < |steps|
  {
    steps[k].Pass? && LostAfterPass(steps[..k]) && !Written(steps[..k])
  }

  ghost predicate Forgets(steps: seq<Step>) {
    exists k :: 0 <= k < |steps| && ForgetsAt(steps, k)
  }

  lemma WrittenNext(steps: seq<Step>, step: Step)
    ensures Written(steps + [step]) <==> Written(steps) || (step.WriteStatus? && exists p :: 0 <= p < |steps| && steps[p].Pass?)
    ensures LostAfterPass(steps + [step]) <==> LostAfterPass(steps) || (step.Lose? && exists p :: 0 <= p < |steps| && steps[p].Pass?)
  {
    var all := steps + [step];
    assert forall i :: 0 <= i < |steps| ==> all[i] == steps[i];
    assert all[|steps|] == step;
  }

  /** The state is missing and no status says that there was one. */
  predicate Blank(s: System) {
    s.state.None? && !s.hasStatus && s.reports != []
  }

  /** What the shape of a run says about its end. */
  lemma {:induction false} ShapeShows(steps: seq<Step>)
    ensures After(steps).hasStatus <==> Written(steps)
    ensures After(steps).reports != [] <==> exists p :: 0 <= p < |steps| && steps[p].Pass?
  {
    if steps != [] {
      var before, step := steps[..|steps| - 1], steps[|steps| - 1];
      assert steps == before + [step];
      ShapeShows(before);
      WrittenNext(before, step);
      PassedNext(before, step);
    }
  }

  lemma PassedNext(steps: seq<Step>, step: Step)
    ensures (exists p :: 0 <= p < |steps + [step]| && (steps + [step])[p].Pass?) <==>
            step.Pass? || exists p :: 0 <= p < |steps| && steps[p].Pass?
  {
    var all := steps + [step];
    assert all[|steps|] == step;
    assert forall i :: 0 <= i < |steps| ==> all[i] == steps[i];
  }

  lemma ForgetsLater(steps: seq<Step>, step: Step)
    ensures Forgets(steps) ==> Forgets(steps + [step])
    ensures step.Pass? && LostAfterPass(steps) && !Written(steps) ==> Forgets(steps + [step])
  {
    var all := steps + [step];
    assert all[..|steps|] == steps && all[|steps|] == step;
    if Forgets(steps) {
      var k :| 0 <= k < |steps| && ForgetsAt(steps, k);
      assert all[..k] == steps[..k] && all[k] == steps[k];
      assert ForgetsAt(all, k);
    }
    if step.Pass? && LostAfterPass(steps) && !Written(steps) {
      assert ForgetsAt(all, |steps|);
    }
  }

  /** Pins stick, or the state was lost early and no pass has run since. */
  ghost predicate Held(steps: seq<Step>, key: string, name: string) {
    var s := After(steps);
    Consistent(s.reports, key) && (Sticks(s, key, name) || (Blank(s) && LostAfterPass(steps)))
  }

  lemma HeldNext(steps: seq<Step>, step: Step, key: string, name: string)
    requires Held(steps, key, name) && (step.Pass? ==> name != "" && key in step.selected && step.selected[key].name == name)
    requires !(step.Pass? && LostAfterPass(steps) && !Written(steps))
    ensures Held(steps + [step], key, name)
  {
    var s := After(steps);
    assert (steps + [step])[..|steps|] == steps;
    assert After(steps + [step]) == Next(s, step);
    ShapeShows(steps);
    WrittenNext(steps, step);
    match step
    case Pass(selected) => PassSticks(s, key, name, selected);
    case WriteStatus =>
    case Lose =>
  }

  lemma {:induction false} RunHolds(steps: seq<Step>, key: string, name: string)
    requires Selects(steps, key, name) && !Forgets(steps)
    ensures Held(steps, key, name)
  {
    if steps != [] {
      var before, step := steps[..|steps| - 1], steps[|steps| - 1];
      assert steps == before + [step];
      ForgetsLater(before, step);
      assert forall i :: 0 <= i < |before| ==> before[i] == steps[i];
      RunHolds(before, key, name);
      HeldNext(before, step, key, name);
    }
  }

  // ----- a run that forgets -------------------------------------------------

  /** The same run with the name denoting `first` up to step `j` and `second` from there on. */
  function Denoting(steps: seq<Step>, key: string, first: Ref, second: Ref, j: nat): (others: seq<Step>)
    ensures |others| == |steps|
  {
    seq(|steps|, i requires 0 <= i < |steps| =>
      if steps[i].Pass? then Pass(map[key := if i < j then first else second]) else steps[i])
  }

  ghost predicate SameShape(a: seq<Step>, b: seq<Step>) {
    |a| == |b| && forall i :: 0 <= i < |a| ==> (a[i].Pass? <==> b[i].Pass?) && (a[i].Lose? <==> b[i].Lose?)
  }

  lemma ShapeKept(a: seq<Step>, b: seq<Step>, n: nat)
    requires SameShape(a, b) && n <= |a|
    ensures Written(a[..n]) <==> Written(b[..n])
    ensures LostAfterPass(a[..n]) <==> LostAfterPass(b[..n])
  {
    var x, y := a[..n], b[..n];
    assert forall i :: 0 <= i < n ==> (x[i].Pass? <==> y[i].Pass?) && (x[i].Lose? <==> y[i].Lose?);
  }

  lemma ForgetsByShape(a: seq<Step>, b: seq<Step>)
    requires SameShape(a, b)
    ensures Forgets(a) ==> Forgets(b)
  {
    if Forgets(a) {
      var k :| 0 <= k < |a| && ForgetsAt(a, k);
      ShapeKept(a, b, k);
      assert ForgetsAt(b, k);
    }
  }

  /** A state that holds one pin, or none. */
  predicate PinsOnly(state: Option<State>, key: string, ref: Ref) {
    state.None? || state.value == State(false, map[key := ref]) || state.value == State(false, map[])
  }

  lemma PassPins(s: System, key: string, ref: Ref)
    requires !s.hasStatus && PinsOnly(s.state, key, ref) && ref.name != "" && ref.uid != ""
    ensures var after := Next(s, Pass(map[key := ref]));
            PinsOnly(after.state, key, ref) && PinnedUid(after.reports[|s.reports|], key) == ref.uid
  {
    var loaded := Loaded(s.state, false);
    assert Resolved(loaded.references, map[key := ref]) == map[key := ref];
  }

  /** `later` goes on from `s` with reports that all resolve the key to `ref`. */
  ghost predicate Stretches(s: System, later: System, key: string, ref: Ref) {
    && PinsOnly(later.state, key, ref) && s.reports <= later.reports
    && forall i :: |s.reports| <= i < |later.reports| ==> PinnedUid(later.reports[i], key) == ref.uid
  }

  lemma StretchNext(s: System, later: System, key: string, ref: Ref, step: Step)
    requires Stretches(s, later, key, ref) && !later.hasStatus && ref.name != "" && ref.uid != ""
    requires step.Pass? ==> step == Pass(map[key := ref])
    ensures Stretches(s, Next(later, step), key, ref)
  {
    if step.Pass? { PassPins(later, key, ref); }
  }

  /** Whenever a pass runs, the key denotes `ref`. */
  ghost predicate AllDenote(steps: seq<Step>, key: string, ref: Ref) {
    forall i :: 0 <= i < |steps| && steps[i].Pass? ==> steps[i] == Pass(map[key := ref])
  }

  /** The state after more steps. */
  function Run(s: System, more: seq<Step>): System {
    if more == [] then s else Next(Run(s, more[..|more| - 1]), more[|more| - 1])
  }

  lemma {:induction false} AfterRuns(steps: seq<Step>, more: seq<Step>)
    ensures After(steps + more) == Run(After(steps), more)
    decreases |more|
  {
    if more == [] {
      assert steps + more == steps;
    } else {
      assert (steps + more)[..|steps + more| - 1] == steps + more[..|more| - 1];
      AfterRuns(steps, more[..|more| - 1]);
    }
  }

  /** While no status is written, passes over one denotation pin it. */
  lemma {:induction false} StretchPins(s: System, more: seq<Step>, key: string, ref: Ref)
    requires PinsOnly(s.state, key, ref) && ref.name != "" && ref.uid != "" && !Run(s, more).hasStatus
    requires AllDenote(more, key, ref)
    ensures Stretches(s, Run(s, more), key, ref)
  {
    if more != [] {
      var rest := more[..|more| - 1];
      DenoteLess(more, key, ref, |more| - 1);
      StretchPins(s, rest, key, ref);
      StretchNext(s, Run(s, rest), key, ref, more[|more| - 1]);
    }
  }

  // ----- a lost state object ------------------------------------------------

  /** From here on nothing is reported current. */
  predicate Distrusted(s: System) {
    s.hasStatus && (s.state.None? || s.state.value.unverified)
  }

  /** A source whose status was written and whose state was lost is never reported current again. */
  lemma NeverCurrentAgain(steps: seq<Step>, more: seq<Step>, i: nat)
    requires Distrusted(After(steps))
    requires |After(steps).reports| <= i < |After(steps + more).reports|
    ensures Distrusted(After(steps + more)) && !After(steps + more).reports[i].current
  {
    LossDistrusts(steps, more);
    NoneCurrent(steps, more, i);
  }

  lemma {:induction false} LossDistrusts(steps: seq<Step>, more: seq<Step>)
    requires Distrusted(After(steps))
    ensures Distrusted(After(steps + more)) && |After(steps + more).reports| >= |After(steps).reports|
    decreases |more|
  {
    if more == [] {
      assert steps + more == steps;
    } else {
      var rest := more[..|more| - 1];
      assert (steps + more)[..|steps + more| - 1] == steps + rest;
      LossDistrusts(steps, rest);
    }
  }

  lemma {:induction false} NoneCurrent(steps: seq<Step>, more: seq<Step>, i: nat)
    requires Distrusted(After(steps)) && |After(steps).reports| <= i < |After(steps + more).reports|
    ensures !After(steps + more).reports[i].current
    decreases |more|
  {
    assert more == [] ==> steps + more == steps;
    if more != [] {
      var rest := more[..|more| - 1];
      assert (steps + more)[..|steps + more| - 1] == steps + rest;
      LossDistrusts(steps, rest);
      if i < |After(steps + rest).reports| {
        NoneCurrent(steps, rest, i);
      }
    }
  }

  // ----- exactly when pins stick --------------------------------------------

  /** Every pass over one denotation resolves to it. */
  lemma FirstPins(before: seq<Step>, key: string, ref: Ref)
    requires ref.name != "" && ref.uid != "" && !After(before).hasStatus && After(before).reports != []
    requires AllDenote(before, key, ref)
    ensures PinnedUid(After(before).reports[0], key) == ref.uid
  {
    AfterRuns([], before);
    assert [] + before == before;
    StretchPins(After([]), before, key, ref);
  }

  /** The run up to and with the loss. */
  lemma BeforeLoss(before: seq<Step>, loss: Step, key: string, ref: Ref, i: nat)
    requires i < |before| && before[i].Pass? && loss.Lose? && ref.name != "" && ref.uid != "" && !After(before).hasStatus
    requires AllDenote(before, key, ref)
    ensures var s := After(before + [loss]); s.state.None? && s.reports != [] && PinnedUid(s.reports[0], key) == ref.uid
  {
    ShapeShows(before);
    FirstPins(before, key, ref);
    assert (before + [loss])[..|before|] == before;
  }

  /** A last pass over another denotation resolves to that one. */
  lemma LastPins(s: System, rest: seq<Step>, key: string, ref: Ref)
    requires s.state.None? && ref.name != "" && ref.uid != "" && !Run(s, rest).hasStatus && rest != [] && rest[|rest| - 1].Pass?
    requires AllDenote(rest, key, ref)
    ensures var reports := Run(s, rest).reports;
            s.reports < reports && PinnedUid(reports[|reports| - 1], key) == ref.uid
  {
    DenoteLess(rest, key, ref, |rest| - 1);
    StretchPins(s, rest[..|rest| - 1], key, ref);
    StretchPins(s, rest, key, ref);
  }

  lemma TwoPins(before: seq<Step>, loss: Step, rest: seq<Step>, key: string, first: Ref, second: Ref, i: nat)
    requires i < |before| && before[i].Pass? && loss.Lose? && rest != [] && rest[|rest| - 1].Pass?
    requires !After(before).hasStatus && !After(before + [loss] + rest).hasStatus
    requires first.name != "" && first.uid != "" && second.name != "" && second.uid != "" && first.uid != second.uid
    requires AllDenote(before, key, first) && AllDenote(rest, key, second)
    ensures !Consistent(After(before + [loss] + rest).reports, key)
  {
    var upto := before + [loss];
    BeforeLoss(before, loss, key, first, i);
    AfterRuns(upto, rest);
    LastPins(After(upto), rest, key, second);
    Clashing(After(upto).reports, After(upto + rest).reports, key, first.uid, second.uid);
  }

  lemma Clashing(few: seq<Report>, all: seq<Report>, key: string, first: UID, second: UID)
    requires few != [] && few < all && PinnedUid(few[0], key) == first && PinnedUid(all[|all| - 1], key) == second
    requires first != "" && second != "" && first != second
    ensures !Consistent(all, key)
  {
    assert all[0] == few[0];
    assert !(PinnedUid(all[0], key) == "" || PinnedUid(all[|all| - 1], key) == "" || PinnedUid(all[0], key) == PinnedUid(all[|all| - 1], key));
  }

  lemma {:induction false} ReportsKept(steps: seq<Step>, n: nat)
    requires n <= |steps|
    ensures After(steps[..n]).reports <= After(steps).reports
  {
    if n < |steps| {
      ReportsKept(steps[..|steps| - 1], n);
      assert steps[..|steps| - 1][..n] == steps[..n];
    } else {
      assert steps[..n] == steps;
    }
  }

  lemma Unwritten(steps: seq<Step>, n: nat, k: nat)
    requires n <= k < |steps| && !Written(steps[..k]) && steps[k].Pass?
    ensures !After(steps[..n]).hasStatus && !After(steps[..k + 1]).hasStatus
  {
    ShapeShows(steps[..n]);
    ShapeShows(steps[..k]);
    assert steps[..k + 1][..k] == steps[..k];
    assert steps[..k][..n] == steps[..n];
    StaysWritten(steps[..k], n);
  }

  lemma StaysWritten(steps: seq<Step>, n: nat)
    requires n <= |steps|
    ensures Written(steps[..n]) ==> Written(steps)
  {
    if Written(steps[..n]) {
      var p, q :| 0 <= p < q < n && steps[..n][p].Pass? && steps[..n][q].WriteStatus?;
      assert steps[p].Pass? && steps[q].WriteStatus?;
    }
  }

  lemma SameUnwritten(steps: seq<Step>, others: seq<Step>, j: nat, k: nat)
    requires SameShape(steps, others) && j <= k < |steps| && !Written(steps[..k]) && steps[k].Pass?
    ensures !After(others[..j]).hasStatus && !After(others[..k + 1]).hasStatus
  {
    ShapeKept(steps, others, k);
    Unwritten(others, j, k);
  }

  /** The state lost before the status was written lets a name resolve anew. */
  lemma EarlyLossForgets(steps: seq<Step>, key: string, first: Ref, second: Ref) returns (others: seq<Step>)
    requires Forgets(steps) && first.name == second.name != "" && first.uid != "" && second.uid != "" && first.uid != second.uid
    ensures SameShape(steps, others) && Selects(others, key, first.name) && !Consistent(After(others).reports, key)
  {
    var k :| 0 <= k < |steps| && ForgetsAt(steps, k);
    var i, j := LossBefore(steps[..k]);
    others := Denoting(steps, key, first, second, j);
    DenotingShape(steps, key, first, second, j, k);
    SameUnwritten(steps, others, j, k);
    ForgottenAt(others, key, first, second, i, j, k);
  }

  lemma DenoteLess(steps: seq<Step>, key: string, ref: Ref, n: nat)
    requires AllDenote(steps, key, ref) && n <= |steps|
    ensures AllDenote(steps[..n], key, ref)
  {
  }

  lemma Around(steps: seq<Step>, j: nat, k: nat)
    requires j < k < |steps|
    ensures steps[..j] + [steps[j]] + steps[j + 1..k + 1] == steps[..k + 1]
  {
  }

  lemma ForgottenAt(steps: seq<Step>, key: string, first: Ref, second: Ref, i: nat, j: nat, k: nat)
    requires i < j < k < |steps| && steps[i].Pass? && steps[j].Lose? && steps[k].Pass?
    requires !After(steps[..j]).hasStatus && !After(steps[..k + 1]).hasStatus
    requires first.name != "" && first.uid != "" && second.name != "" && second.uid != "" && first.uid != second.uid
    requires AllDenote(steps[..j], key, first) && AllDenote(steps[j + 1..k + 1], key, second)
    ensures !Consistent(After(steps).reports, key)
  {
    Around(steps, j, k);
    TwoPins(steps[..j], steps[j], steps[j + 1..k + 1], key, first, second, i);
    StillInconsistent(steps, key, k + 1);
  }

  lemma DenotingShape(steps: seq<Step>, key: string, first: Ref, second: Ref, j: nat, k: nat)
    requires first.name == second.name != "" && j < k < |steps|
    ensures var others := Denoting(steps, key, first, second, j);
            && SameShape(steps, others) && Selects(others, key, first.name)
            && AllDenote(others[..j], key, first) && AllDenote(others[j + 1..k + 1], key, second)
  {
  }

  lemma LossBefore(steps: seq<Step>) returns (i: nat, j: nat)
    requires LostAfterPass(steps)
    ensures i < j < |steps| && steps[i].Pass? && steps[j].Lose?
  {
    i, j :| 0 <= i < j < |steps| && steps[i].Pass? && steps[j].Lose?;
  }

  lemma StillInconsistent(steps: seq<Step>, key: string, n: nat)
    requires n <= |steps| && !Consistent(After(steps[..n]).reports, key)
    ensures !Consistent(After(steps).reports, key)
  {
    ReportsKept(steps, n);
    var few, all := After(steps[..n]).reports, After(steps).reports;
    assert forall i :: 0 <= i < |few| ==> all[i] == few[i];
  }

  /** Whatever the names denote at each pass, no pass resolves the key to another UID than an earlier one. */
  ghost predicate PinsStick(steps: seq<Step>, key: string, name: string) {
    forall others :: SameShape(steps, others) && Selects(others, key, name) ==> Consistent(After(others).reports, key)
  }

  /**
   * Once a name has been resolved to a UID no later pass resolves it to
   * another one, whatever it denotes by then, if and only if no pass follows
   * the loss of a state that an earlier pass made while no status was written.
   */
  lemma PinsStickIff(steps: seq<Step>, key: string, name: string)
    requires name != ""
    ensures PinsStick(steps, key, name) <==> !Forgets(steps)
  {
    if Forgets(steps) {
      var others := EarlyLossForgets(steps, key, Ref(name, "1", 1), Ref(name, "2", 1));
    } else {
      forall others | SameShape(steps, others) && Selects(others, key, name) ensures Consistent(After(others).reports, key) {
        ForgetsByShape(others, steps);
        RunHolds(others, key, name);
      }
    }
  }
}
