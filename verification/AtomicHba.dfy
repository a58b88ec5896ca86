/** lab/atomic_hba.py: the compare-and-swap of the whole pg_hba.conf by any number of writers, each of which
    may be killed between any two commands of the script or be fed a truncated or wrong payload. */
module AtomicHba {
  import opened Prelude

  type Id = nat

  /** SHA-256 taken as ideal: a digest stands for one content. */
  datatype Digest = Sha256(content: string)

  const HEADER := "# sbarbase-hba-revision: "
  const REVISION_LENGTH := 36

  /** The content a prepared request carries: a fresh revision header, then the rules. */
  function Versioned(revision: string, rules: string): string {
    HEADER + revision + "\n" + rules
  }

  predicate Headed(content: string, revision: string) {
    HEADER + revision + "\n" <= content
  }

  predicate CompleteText(rules: string) {
    rules != "" && rules[|rules| - 1] == '\n' && '\0' !in rules
  }

  datatype Prepared = Prepared(expected: Digest, revision: string, content: string)

  /** How far one run of the script got; from `Locked` on it holds the file lock. */
  datatype Stage = Started | Locked | Admitted | Staged(payload: string) | Verified(payload: string) | Renamed

  datatype Writer = Writer(request: nat, stage: Stage)

  /** `history` and `done` record the run: every content the file had, and the requests whose rename took effect. */
  datatype State = State(target: string, requests: seq<Prepared>, lock: Option<Id>, writers: map<Id, Writer>,
                         history: seq<string>, done: seq<nat>)

  function Initial(content: string): State {
    State(content, [], None, map[], [content], [])
  }

  datatype Action =
    | Prepare(rules: string, revision: string)
    | Launch(id: Id, request: nat)
    | TakeLock(id: Id)
    | Compare(id: Id)
    | Receive(id: Id, payload: string)
    | Verify(id: Id)
    | Rename(id: Id)
    | Exit(id: Id)
    | Kill(id: Id)

  function Gone(s: State, id: Id): State {
    s.(writers := s.writers - {id}, lock := if s.lock == Some(id) then None else s.lock)
  }

  function At(s: State, id: Id, stage: Stage): State
    requires id in s.writers
  {
    s.(writers := s.writers[id := s.writers[id].(stage := stage)])
  }

  /** A UUID's text. */
  predicate RevisionText(revision: string) {
    |revision| == REVISION_LENGTH
    && forall i :: 0 <= i < |revision| ==> '0' <= revision[i] <= '9' || 'a' <= revision[i] <= 'f' || revision[i] == '-'
  }

  /** No other request, nor the original file, carries this revision. */
  predicate FreshRevision(s: State, revision: string) {
    && RevisionText(revision)
    && (forall i :: 0 <= i < |s.requests| ==> s.requests[i].revision != revision)
    && s.history != [] && !Headed(s.history[0], revision)
  }

  /** One command of one writer; nothing when it cannot happen. */
  function Step(s: State, a: Action): Option<State> {
    match a
    case Prepare(rules, revision) =>
      if CompleteText(rules) && FreshRevision(s, revision)
      then Some(s.(requests := s.requests + [Prepared(Sha256(s.target), revision, Versioned(revision, rules))])) else None
    case Launch(id, request) =>
      if id !in s.writers && request < |s.requests|
      then Some(s.(writers := s.writers[id := Writer(request, Started)])) else None
    case Kill(id) => if id in s.writers then Some(Gone(s, id)) else None
    case _ =>
      if a.id !in s.writers || s.writers[a.id].request >= |s.requests| then None
      else WriterStep(s, a, s.writers[a.id].stage, s.requests[s.writers[a.id].request])
  }

  function WriterStep(s: State, a: Action, stage: Stage, request: Prepared): Option<State>
    requires !a.Prepare? && a.id in s.writers
  {
    match a
    case TakeLock(id) =>
      if !stage.Started? then None
      else if s.lock.None? then Some(At(s, id, Locked).(lock := Some(id)))
      else Some(Gone(s, id))                                                    // exit 73, writer busy
    case Compare(id) =>
      if !stage.Locked? then None
      else if Sha256(s.target) == request.expected then Some(At(s, id, Admitted))
      else Some(Gone(s, id))                                                    // exit 74, revision changed
    case Receive(id, payload) => if stage.Admitted? then Some(At(s, id, Staged(payload))) else None
    case Verify(id) =>
      if !stage.Staged? then None
      else if |stage.payload| == |request.content| && Sha256(stage.payload) == Sha256(request.content)
      then Some(At(s, id, Verified(stage.payload)))
      else Some(Gone(s, id))
    case Rename(id) =>
      if stage.Verified?
      then Some(At(s, id, Renamed).(target := stage.payload, history := s.history + [stage.payload], done := s.done + [s.writers[id].request])) else None
    case Exit(id) => if stage.Renamed? then Some(Gone(s, id)) else None
    case _ => None
  }

  function Run(s: State, actions: seq<Action>): Option<State>
    decreases |actions|
  {
    if actions == [] then Some(s) else
    var next := Step(s, actions[0]);
    if next.None? then None else Run(next.value, actions[1..])
  }

  // ------------------------------------------------------------ the chain of contents

  /** Every replacement replaced the content its request expected; no content ever comes back. */
  ghost predicate Chain(s: State) {
    && |s.history| == |s.done| + 1
    && s.target == s.history[|s.done|]
    && (forall k :: 0 <= k < |s.done| ==> s.done[k] < |s.requests| && s.history[k + 1] == s.requests[s.done[k]].content
                                          && s.requests[s.done[k]].expected == Sha256(s.history[k]))
    && NoDuplicates(s.history)
  }

  /** Requests carry contents of their own, and each captured a content the file had. */
  ghost predicate Distinct(s: State) {
    && s.history != []
    && (forall i :: 0 <= i < |s.requests| ==> s.requests[i].content != s.history[0]
                                              && s.requests[i].expected.content in s.history)
    && forall i, j :: 0 <= i < j < |s.requests| ==> s.requests[i].content != s.requests[j].content
  }

  ghost predicate Headers(s: State) {
    && s.history != []
    && (forall i :: 0 <= i < |s.requests| ==>
          |s.requests[i].revision| == REVISION_LENGTH && Headed(s.requests[i].content, s.requests[i].revision)
          && Whole(s.requests[i].content))
  }

  /** Text whose last line has its end, without a NUL. */
  predicate Whole(content: string) {
    content != "" && content[|content| - 1] == '\n' && '\0' !in content
  }

  ghost predicate WriterSound(s: State, id: Id, w: Writer) {
    && w.request < |s.requests|
    && (w.stage.Started? <==> s.lock != Some(id))
    && (w.stage.Admitted? || w.stage.Staged? || w.stage.Verified? ==> s.requests[w.request].expected == Sha256(s.target))
    && (w.stage.Verified? ==> w.stage.payload == s.requests[w.request].content)
  }

  ghost predicate Writers(s: State) {
    && (s.lock.Some? ==> s.lock.value in s.writers)
    && forall id <- s.writers :: WriterSound(s, id, s.writers[id])
  }

  ghost predicate Inv(s: State) {
    Headers(s) && Distinct(s) && Chain(s) && Writers(s)
  }

  /** Requests with different revisions never carry the same content, whatever their rules. */
  lemma HeadersDiffer(content: string, r: string, r': string)
    requires |r| == |r'| && Headed(content, r) && Headed(content, r')
    ensures r == r'
  {
    var n := |HEADER|;
    assert (HEADER + r + "\n")[n..n + |r|] == r;
    assert (HEADER + r' + "\n")[n..n + |r|] == r';
    assert content[n..n + |r|] == r;
    assert content[n..n + |r|] == r';
  }

  lemma VersionedIsHeaded(revision: string, rules: string)
    ensures Headed(Versioned(revision, rules), revision)
  {
  }

  lemma VersionedIsComplete(revision: string, rules: string)
    requires CompleteText(rules) && RevisionText(revision)
    ensures Whole(Versioned(revision, rules))
  {
    assert '\0' !in HEADER;
  }

  /** A fresh revision makes a content that no request and no earlier file carries. */
  lemma PrepareKeepsInv(s: State, rules: string, revision: string)
    requires Inv(s) && Step(s, Prepare(rules, revision)).Some?
    ensures Inv(Step(s, Prepare(rules, revision)).value)
  {
    var s' := Step(s, Prepare(rules, revision)).value;
    var content := Versioned(revision, rules);
    VersionedIsHeaded(revision, rules);
    VersionedIsComplete(revision, rules);
    forall i | 0 <= i < |s.requests| ensures s.requests[i].content != content {
      if s.requests[i].content == content {
        HeadersDiffer(content, revision, s.requests[i].revision);
      }
    }
    forall id <- s'.writers ensures WriterSound(s', id, s'.writers[id]) {
      assert WriterSound(s, id, s.writers[id]);
    }
  }

  /** A request not yet done carries a content the file never had. */
  lemma ContentIsNew(s: State, r: nat)
    requires Distinct(s) && Chain(s) && r < |s.requests| && r !in s.done
    ensures s.requests[r].content !in s.history
  {
    forall k | 0 <= k < |s.history| ensures s.history[k] != s.requests[r].content {
      if k > 0 {
        assert s.done[k - 1] in s.done;
      }
    }
  }

  /** A request whose expected content is in the file now is not done: no content comes back. */
  lemma CurrentIsNotDone(s: State, r: nat)
    requires Chain(s) && r < |s.requests| && s.requests[r].expected == Sha256(s.target)
    ensures r !in s.done
  {
  }

  lemma RenameKeepsChain(s: State, id: Id)
    requires Distinct(s) && Chain(s) && Writers(s) && id in s.writers && s.writers[id].stage.Verified?
    ensures var s' := Step(s, Rename(id)).value; Distinct(s') && Chain(s')
  {
    var r := s.writers[id].request;
    assert WriterSound(s, id, s.writers[id]);
    CurrentIsNotDone(s, r);
    ContentIsNew(s, r);
    OneMoreContent(s.history, s.requests[r].content);
    var s' := Step(s, Rename(id)).value;
    assert s'.history == s.history + [s.requests[r].content] && s'.done == s.done + [r];
  }

  lemma OneMoreContent(history: seq<string>, content: string)
    requires NoDuplicates(history) && content !in history
    ensures NoDuplicates(history + [content])
  {
  }

  lemma WritersKeep(s: State, a: Action)
    requires Writers(s) && !a.Prepare? && Step(s, a).Some?
    ensures Writers(Step(s, a).value)
  {
    var s' := Step(s, a).value;
    assert a.id in s.writers ==> WriterSound(s, a.id, s.writers[a.id]);
    forall id <- s'.writers ensures WriterSound(s', id, s'.writers[id]) {
      assert id in s.writers ==> WriterSound(s, id, s.writers[id]);
    }
  }

  lemma StepKeepsInv(s: State, a: Action)
    requires Inv(s) && Step(s, a).Some?
    ensures Inv(Step(s, a).value)
  {
    if a.Prepare? {
      PrepareKeepsInv(s, a.rules, a.revision);
    } else {
      WritersKeep(s, a);
      SameRequests(s, a);
      if a.Rename? {
        RenameKeepsChain(s, a.id);
      }
    }
  }

  lemma SameRequests(s: State, a: Action)
    requires !a.Prepare? && Step(s, a).Some?
    ensures var s' := Step(s, a).value;
            && s'.requests == s.requests
            && (!a.Rename? ==> s'.target == s.target && s'.history == s.history && s'.done == s.done)
            && (s.history != [] ==> s'.history != [] && s'.history[0] == s.history[0])
  {
  }

  lemma {:induction false} RunKeepsInv(s: State, actions: seq<Action>)
    requires Inv(s) && Run(s, actions).Some?
    ensures Inv(Run(s, actions).value)
    decreases |actions|
  {
    if actions != [] {
      StepKeepsInv(s, actions[0]);
      RunKeepsInv(Step(s, actions[0]).value, actions[1..]);
    }
  }

  // ------------------------------------------------------------ the promises, over every run

  /** However writers interleave, die and are fed: the file is always the original or one whole prepared
      content, replacements form a chain in which each replaced exactly what it expected, and each request
      takes effect at most once. */
  lemma FileIsAlwaysOneCompleteContent(content: string, actions: seq<Action>)
    requires Run(Initial(content), actions).Some?
    ensures var s := Run(Initial(content), actions).value;
            && (s.target == content || exists i :: 0 <= i < |s.requests| && s.target == s.requests[i].content)
            && (s.target == content || Whole(s.target))
            && Chain(s)
            && NoDuplicates(s.done)
  {
    RunKeepsInv(Initial(content), actions);
    RunKeepsOrigin(Initial(content), actions);
    var s := Run(Initial(content), actions).value;
    forall i, j | 0 <= i < j < |s.done| ensures s.done[i] != s.done[j] {
      assert s.history[i + 1] != s.history[j + 1];
    }
    if s.done != [] {
      assert s.target == s.requests[s.done[|s.done| - 1]].content;
    }
  }

  lemma {:induction false} RunKeepsOrigin(s: State, actions: seq<Action>)
    requires s.history != [] && Run(s, actions).Some?
    ensures s.history <= Run(s, actions).value.history
    decreases |actions|
  {
    if actions != [] {
      RunKeepsOrigin(Step(s, actions[0]).value, actions[1..]);
    }
  }

  ghost predicate Stale(s: State, r: nat) {
    r < |s.requests| && s.requests[r].expected != Sha256(s.target)
  }

  /** From one state to a later one, the request took no effect. */
  ghost predicate NotDoneSince(s: State, s': State, r: nat) {
    s.done <= s'.done && forall k :: |s.done| <= k < |s'.done| ==> s'.done[k] != r
  }

  /** A request whose expected revision is no longer in the file never takes effect again, even when the
      same rules come back: no later replacement is its. */
  lemma {:induction false} StaleRequestNeverRevives(s: State, actions: seq<Action>, r: nat)
    requires Inv(s) && Run(s, actions).Some? && Stale(s, r)
    ensures NotDoneSince(s, Run(s, actions).value, r) && Stale(Run(s, actions).value, r)
    decreases |actions|
  {
    if actions != [] {
      StaleStep(s, actions[0], r);
      StepKeepsInv(s, actions[0]);
      StaleRequestNeverRevives(Step(s, actions[0]).value, actions[1..], r);
    }
  }

  lemma StaleStep(s: State, a: Action, r: nat)
    requires Inv(s) && Step(s, a).Some? && Stale(s, r)
    ensures NotDoneSince(s, Step(s, a).value, r) && Stale(Step(s, a).value, r)
  {
    if a.Rename? {
      StaleSurvivesRename(s, a.id, r);
    }
  }

  lemma StaleSurvivesRename(s: State, id: Id, r: nat)
    requires Inv(s) && Step(s, Rename(id)).Some?
    requires r < |s.requests| && s.requests[r].expected != Sha256(s.target)
    ensures s.writers[id].request != r && s.requests[r].expected != Sha256(Step(s, Rename(id)).value.target)
  {
    assert WriterSound(s, id, s.writers[id]);
    CurrentIsNotDone(s, s.writers[id].request);
    ContentIsNew(s, s.writers[id].request);
    assert s.requests[r].expected.content in s.history;
  }

  /** A successful request has itself become stale: replaying it is refused for ever. */
  lemma SuccessCannotBeReplayed(s: State, id: Id)
    requires Inv(s) && Step(s, Rename(id)).Some?
    ensures var s' := Step(s, Rename(id)).value;
            Inv(s') && s'.requests[s.writers[id].request].expected != Sha256(s'.target)
  {
    StepKeepsInv(s, Rename(id));
    var s' := Step(s, Rename(id)).value;
    assert WriterSound(s, id, s.writers[id]);
    assert s'.history[|s.done|] != s'.history[|s'.done|];
  }

  /** Whatever payload arrives, only the lock's holder changes the file, and only to its request's content. */
  lemma OnlyTheHolderWrites(s: State, a: Action)
    requires Inv(s) && Step(s, a).Some? && Step(s, a).value.target != s.target
    ensures a.Rename? && s.lock == Some(a.id)
    ensures Step(s, a).value.target == s.requests[s.writers[a.id].request].content
  {
    assert WriterSound(s, a.id, s.writers[a.id]);
  }

  /** Undisturbed, a request for the current revision goes through, whatever killed writers left behind;
      any other is refused and leaves everything as it was. */
  lemma RequestGoesThroughExactlyWhenCurrent(s: State, id: Id, r: nat)
    requires Inv(s) && s.lock.None? && id !in s.writers && r < |s.requests|
    ensures var p := s.requests[r].content;
            var begin := [Launch(id, r), TakeLock(id), Compare(id)];
            var rest := [Receive(id, p), Verify(id), Rename(id), Exit(id)];
            if s.requests[r].expected == Sha256(s.target)
            then Run(s, begin + rest) == Some(s.(target := p, history := s.history + [p], done := s.done + [r]))
            else Run(s, begin) == Some(s)
  {
    if s.requests[r].expected == Sha256(s.target) { CurrentGoesThrough(s, id, r); } else { StaleIsTurnedAway(s, id, r); }
  }

  lemma CurrentGoesThrough(s: State, id: Id, r: nat)
    requires Inv(s) && s.lock.None? && id !in s.writers && r < |s.requests| && s.requests[r].expected == Sha256(s.target)
    ensures var p := s.requests[r].content;
            Run(s, [Launch(id, r), TakeLock(id), Compare(id)] + [Receive(id, p), Verify(id), Rename(id), Exit(id)])
              == Some(s.(target := p, history := s.history + [p], done := s.done + [r]))
  {
    var p := s.requests[r].content;
    var rest := [Receive(id, p), Verify(id), Rename(id), Exit(id)];
    var s2 := Holding(s, id, r);
    LaunchAndLock(s, id, r, [Compare(id)] + rest);
    var s3 := Step(s2, Compare(id)).value;
    RestGoesThrough(s3, id, r);
    var s7 := Run(s3, rest).value;
    assert s7.writers == s.writers;
    RunOnto(s2, Compare(id), rest);
    assert [Launch(id, r), TakeLock(id)] + ([Compare(id)] + rest) == [Launch(id, r), TakeLock(id), Compare(id)] + rest;
  }

  /** One writer that holds the lock, beside whatever killed ones left. */
  function Holding(s: State, id: Id, r: nat): State {
    s.(writers := s.writers[id := Writer(r, Locked)], lock := Some(id))
  }

  lemma LaunchAndLock(s: State, id: Id, r: nat, rest: seq<Action>)
    requires s.lock.None? && id !in s.writers && r < |s.requests|
    ensures Run(s, [Launch(id, r), TakeLock(id)] + rest) == Run(Holding(s, id, r), rest)
  {
    var s1 := Step(s, Launch(id, r)).value;
    assert Step(s1, TakeLock(id)) == Some(Holding(s, id, r)) by {
      assert s1.writers[id := Writer(r, Locked)] == Holding(s, id, r).writers;
    }
    RunOnto(s1, TakeLock(id), rest);
    RunOnto(s, Launch(id, r), [TakeLock(id)] + rest);
    assert [Launch(id, r)] + ([TakeLock(id)] + rest) == [Launch(id, r), TakeLock(id)] + rest;
  }

  lemma HolderLeaves(s: State, id: Id, r: nat, stage: Stage)
    requires s.lock.None? && id !in s.writers
    ensures Gone(s.(writers := s.writers[id := Writer(r, stage)], lock := Some(id)), id) == s
  {
    assert s.writers[id := Writer(r, stage)] - {id} == s.writers;
  }

  lemma StaleIsTurnedAway(s: State, id: Id, r: nat)
    requires Inv(s) && s.lock.None? && id !in s.writers && r < |s.requests| && s.requests[r].expected != Sha256(s.target)
    ensures Run(s, [Launch(id, r), TakeLock(id), Compare(id)]) == Some(s)
  {
    var s2 := Holding(s, id, r);
    LaunchAndLock(s, id, r, [Compare(id)]);
    assert [Launch(id, r), TakeLock(id)] + [Compare(id)] == [Launch(id, r), TakeLock(id), Compare(id)];
    HolderLeaves(s, id, r, Locked);
    assert Step(s2, Compare(id)) == Some(s);
    RunOnto(s2, Compare(id), []);
    assert [Compare(id)] + [] == [Compare(id)];
  }

  lemma RestGoesThrough(s: State, id: Id, r: nat)
    requires id in s.writers && s.writers[id] == Writer(r, Admitted) && s.lock == Some(id) && r < |s.requests|
    ensures var p := s.requests[r].content;
            Run(s, [Receive(id, p), Verify(id), Rename(id), Exit(id)])
              == Some(Gone(s, id).(target := p, history := s.history + [p], done := s.done + [r]))
  {
    var p := s.requests[r].content;
    var s4 := Step(s, Receive(id, p)).value;
    var s5 := Step(s4, Verify(id)).value;
    var s6 := Step(s5, Rename(id)).value;
    var s7 := Step(s6, Exit(id)).value;
    assert s7.writers == s.writers - {id};
    RunOnto(s6, Exit(id), []);
    RunOnto(s5, Rename(id), [Exit(id)]);
    RunOnto(s4, Verify(id), [Rename(id), Exit(id)]);
    RunOnto(s, Receive(id, p), [Verify(id), Rename(id), Exit(id)]);
  }

  // ------------------------------------------------------------ a replacement prepared now

  function AfterFirstLine(text: string): string {
    if text == "" then "" else if text[0] == '\n' then text[1..] else AfterFirstLine(text[1..])
  }

  lemma {:induction false} FirstLineEnds(line: string, rest: string)
    requires '\n' !in line
    ensures AfterFirstLine(line + "\n" + rest) == rest
    decreases |line|
  {
    if line != "" {
      assert line[0] in line && forall c :: c in line[1..] ==> c in line;
      assert (line + "\n" + rest)[1..] == line[1..] + "\n" + rest;
      FirstLineEnds(line[1..], rest);
    } else {
      assert (line + "\n" + rest)[1..] == rest;
    }
  }

  lemma HeaderIsOneLine(revision: string)
    requires RevisionText(revision)
    ensures '\n' !in HEADER + revision && (HEADER + revision)[0] == '#'
  {
    assert '\n' !in HEADER && HEADER[0] == '#';
  }

  /** Prepared and run with nobody in between, a replacement always takes effect: whatever the file holds then and
      whatever killed writers left, it ends as one comment line and then exactly the rules. */
  lemma PreparedReplacementTakesEffect(s: State, id: Id, rules: string, revision: string) returns (payload: string, end: State)
    requires Inv(s) && s.lock.None? && id !in s.writers && FreshRevision(s, revision)
    requires rules != "" && rules[|rules| - 1] == '\n' && '\0' !in rules
    ensures Run(s, [Prepare(rules, revision)]
                   + ([Launch(id, |s.requests|), TakeLock(id), Compare(id)]
                      + [Receive(id, payload), Verify(id), Rename(id), Exit(id)])) == Some(end)
    ensures end.target != "" && end.target[0] == '#' && AfterFirstLine(end.target) == rules
    ensures end.lock.None? && end.writers == s.writers && end.done == s.done + [|s.requests|]
  {
    var t := Step(s, Prepare(rules, revision)).value;
    var r := |s.requests|;
    PrepareKeepsInv(s, rules, revision);
    payload := t.requests[r].content;
    RequestGoesThroughExactlyWhenCurrent(t, id, r);
    end := t.(target := payload, history := t.history + [payload], done := t.done + [r]);
    RunOnto(s, Prepare(rules, revision),
            [Launch(id, r), TakeLock(id), Compare(id)] + [Receive(id, payload), Verify(id), Rename(id), Exit(id)]);
    HeaderIsOneLine(revision);
    FirstLineEnds(HEADER + revision, rules);
    assert payload == HEADER + revision + "\n" + rules;
    assert payload[0] == (HEADER + revision)[0];
  }

  /** A writer killed while it holds the lock, wherever it is, leaves the lock and the file to the next replacement. */
  lemma DeadHolderIsFollowed(s: State, dead: Id, id: Id, rules: string, revision: string) returns (payload: string, end: State)
    requires Inv(s) && s.lock == Some(dead) && dead in s.writers && id !in s.writers && FreshRevision(s, revision)
    requires rules != "" && rules[|rules| - 1] == '\n' && '\0' !in rules
    ensures Step(s, Kill(dead)).Some? && Step(s, Kill(dead)).value.target == s.target
    ensures Run(s, [Kill(dead)] + ([Prepare(rules, revision)]
                                   + ([Launch(id, |s.requests|), TakeLock(id), Compare(id)]
                                      + [Receive(id, payload), Verify(id), Rename(id), Exit(id)]))) == Some(end)
    ensures end.target != "" && end.target[0] == '#' && AfterFirstLine(end.target) == rules
    ensures end.lock.None? && end.writers == s.writers - {dead}
  {
    StepKeepsInv(s, Kill(dead));
    var t := Step(s, Kill(dead)).value;
    payload, end := PreparedReplacementTakesEffect(t, id, rules, revision);
    RunOnto(s, Kill(dead), [Prepare(rules, revision)]
                           + ([Launch(id, |s.requests|), TakeLock(id), Compare(id)]
                              + [Receive(id, payload), Verify(id), Rename(id), Exit(id)]));
  }

  /** A writer that finds the lock held leaves at once and changes nothing. */
  lemma BusyWriterLeaves(s: State, id: Id, r: nat)
    requires s.lock.Some? && s.lock.value != id && id !in s.writers && r < |s.requests|
    ensures Run(s, [Launch(id, r)] + [TakeLock(id)]) == Some(s)
  {
    var s1 := Step(s, Launch(id, r)).value;
    assert s1.writers - {id} == s.writers;
    RunOnto(s, Launch(id, r), [TakeLock(id)]);
    RunOnto(s1, TakeLock(id), []);
    assert [TakeLock(id)] + [] == [TakeLock(id)];
  }

  /** A payload that is not the request's is turned away and leaves everything as it was, whatever it holds. */
  lemma WrongPayloadChangesNothing(s: State, id: Id, r: nat, payload: string)
    requires Inv(s) && s.lock.None? && id !in s.writers && r < |s.requests| && s.requests[r].expected == Sha256(s.target)
    requires payload != s.requests[r].content
    ensures Run(s, [Launch(id, r), TakeLock(id)] + [Compare(id), Receive(id, payload), Verify(id)]) == Some(s)
  {
    var s2 := Holding(s, id, r);
    var rest := [Receive(id, payload), Verify(id)];
    LaunchAndLock(s, id, r, [Compare(id), Receive(id, payload), Verify(id)]);
    var s3 := s.(writers := s.writers[id := Writer(r, Admitted)], lock := Some(id));
    assert s2.writers[id := Writer(r, Admitted)] == s3.writers;
    assert Step(s2, Compare(id)) == Some(s3);
    var s4 := s.(writers := s.writers[id := Writer(r, Staged(payload))], lock := Some(id));
    assert s3.writers[id := Writer(r, Staged(payload))] == s4.writers;
    assert Step(s3, Receive(id, payload)) == Some(s4);
    HolderLeaves(s, id, r, Staged(payload));
    assert Step(s4, Verify(id)) == Some(s);
    RunOnto(s4, Verify(id), []);
    assert [Verify(id)] + [] == [Verify(id)];
    RunOnto(s3, Receive(id, payload), [Verify(id)]);
    assert [Receive(id, payload)] + [Verify(id)] == rest;
    RunOnto(s2, Compare(id), rest);
    assert [Compare(id)] + rest == [Compare(id), Receive(id, payload), Verify(id)];
  }

  lemma RunOnto(s: State, a: Action, rest: seq<Action>)
    requires Step(s, a).Some?
    ensures Run(s, [a] + rest) == Run(Step(s, a).value, rest)
  {
    assert ([a] + rest)[1..] == rest;
  }
}
