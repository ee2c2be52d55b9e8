/**
 * The generation routes: parameter defaulting on create, the merge and
 * record clone on retry, and `processGeneration`, the bounded polling job
 * that drives a row from pending through processing to completed or failed.
 * The hosted model, the download, the clock and `path.resolve` are inputs
 * (`RunEnv`); each run also returns the sequence of its effects (`Event`).
 */
module Generate {
  import opened Wrappers
  import opened Js
  import opened Db
  import Replicate

  const MaxAttempts: nat := 60
  const PollIntervalMs: nat := 5000
  const DefaultSteps: int := 12
  const DefaultGuidanceScale: real := 2.5
  const TimeoutMessage: string := "Timeout waiting for result"
  const UnknownError: string := "Unknown error"
  const MissingImagesMessage: string := "model_image and garment_image are required"

  // ---------------------------------------------------------------- the outside world

  /** `prediction.output`: missing, a URL string, or a list of URLs. */
  datatype Output = NoOutput | TextOutput(url: string) | ListOutput(urls: seq<string>)

  /** A list is truthy even when empty; a string only when non-empty. */
  predicate TruthyOutput(o: Output)
  {
    (o.TextOutput? && o.url != "") || o.ListOutput?
  }

  /** `Array.isArray(output) ? output[0] : output` (`None`, `undefined`, for the first of an empty list). */
  function OutputUrl(o: Output): (u: Option<string>)
    ensures o.TextOutput? ==> u == Some(o.url)
    ensures o.ListOutput? ==> (u.Some? <==> |o.urls| > 0)
    ensures o.ListOutput? && |o.urls| > 0 ==> u == Some(o.urls[0])
    ensures TruthyOutput(o) && u.None? ==> o == ListOutput([])
  {
    match o
    case NoOutput => None
    case TextOutput(url) => Some(url)
    case ListOutput(urls) => if |urls| > 0 then Some(urls[0]) else None
  }

  /** What `getPrediction` returns; `error` is the text of `prediction.error?.toString()`. */
  datatype Prediction = Prediction(status: string, output: Output, error: Option<string>)

  datatype PollReply = Polled(prediction: Prediction) | PollThrew(thrown: Thrown)

  datatype SubmitReply = Submitted(predictionId: string) | SubmitThrew(thrown: Thrown)

  /** Whether creating the results directory and downloading the image succeeded. */
  datatype Outcome = Done | Threw(thrown: Thrown)

  /**
   * The run's environment: `path.resolve`, the prediction service's answer to
   * the submission and to the poll of each attempt, the download's outcome
   * for the URL it is given, what `fetch(undefined)` throws (the URL of an
   * empty output list), and the result file name the clock produces.
   */
  datatype RunEnv = RunEnv(
    resolve: string -> string, submit: SubmitReply, polls: nat -> PollReply,
    download: Outcome, noUrl: Thrown, resultPath: string)

  /** The effects of a run, in order: table writes and calls to the outside. */
  datatype Event =
    | Write(patch: Patch)
    | Submit(version: string, input: Replicate.ReplicateInput)
    | Wait(ms: nat)
    | Poll(predictionId: string, attempt: nat)
    | Download(url: Option<string>, path: string)

  const ProcessingPatch: Patch := Patch(Some(Processing), None, None, None)

  function ReplicateIdPatch(predictionId: string): Patch { Patch(None, None, Some(predictionId), None) }

  function CompletedPatch(path: string): Patch { Patch(Some(Completed), Some(path), None, None) }

  function FailedPatch(message: string): Patch { Patch(Some(Failed), None, None, Some(message)) }

  /** The outer `catch`: `error.message`, or "Unknown error" for a non-`Error`. */
  function ThrownPatch(t: Thrown): Patch { FailedPatch(MessageOf(t, UnknownError)) }

  // ---------------------------------------------------------------- the run, as a trace

  function FileUrl(env: RunEnv, path: string): string { "file://" + env.resolve(path) }

  /** The `runVTON` argument built from the stored row (its own model image: no preprocessing). */
  function Request(g: Generation, env: RunEnv): Replicate.VtonRequest
  {
    Replicate.VtonRequest(
      FileUrl(env, g.modelImage), FileUrl(env, g.garmentImage),
      if TruthyText(g.backgroundImage) then Some(FileUrl(env, g.backgroundImage.value)) else None,
      if TruthyText(g.backgroundPrompt) then g.backgroundPrompt else None,
      g.params)
  }

  predicate Succeeds(r: PollReply)
  {
    r.Polled? && r.prediction.status == "succeeded" && TruthyOutput(r.prediction.output)
  }

  predicate Fails(r: PollReply)
  {
    r.Polled? && r.prediction.status == "failed"
  }

  /** A success whose output names a URL to download (an empty list names none). */
  predicate SucceedsWithUrl(r: PollReply)
  {
    Succeeds(r) && OutputUrl(r.prediction.output).Some?
  }

  /** A reply that ends the loop: success with output, failure, or a thrown error. */
  predicate Terminal(r: PollReply)
  {
    r.PollThrew? || Succeeds(r) || Fails(r)
  }

  /** `downloadImage(url, path)`: with no URL, `fetch` throws before anything is downloaded. */
  function DownloadOutcome(env: RunEnv, url: Option<string>): (d: Outcome)
    ensures url.None? ==> d.Threw? && d.thrown == env.noUrl
  {
    if url.None? then Threw(env.noUrl) else env.download
  }

  /** The write that follows the download: completed with the result file, or the thrown error. */
  function DownloadTrace(env: RunEnv, url: Option<string>): seq<Event>
  {
    match DownloadOutcome(env, url)
    case Done => [Write(CompletedPatch(env.resultPath))]
    case Threw(t) => [Write(ThrownPatch(t))]
  }

  /** What follows the poll that got a terminal reply. */
  function TerminalTrace(env: RunEnv, r: PollReply): seq<Event>
    requires Terminal(r)
  {
    if r.PollThrew? then [Write(ThrownPatch(r.thrown))]
    else if Succeeds(r) then [Download(OutputUrl(r.prediction.output), env.resultPath)] + DownloadTrace(env, OutputUrl(r.prediction.output))
    else [Write(FailedPatch(OrText(r.prediction.error, UnknownError)))]
  }

  /** The polling loop from attempt `a` on. */
  function PollTrace(env: RunEnv, predictionId: string, a: nat): seq<Event>
    decreases MaxAttempts - a
  {
    if a >= MaxAttempts then [Write(FailedPatch(TimeoutMessage))]
    else
      [Wait(PollIntervalMs), Poll(predictionId, a)]
      + (if Terminal(env.polls(a)) then TerminalTrace(env, env.polls(a)) else PollTrace(env, predictionId, a + 1))
  }

  /** The `predictions.create` call. */
  function SubmitEvent(g: Generation, env: RunEnv): Event
  {
    Submit(Replicate.Version(), Replicate.Input(Request(g, env)))
  }

  /** Everything after the `processing` write. */
  function AfterStart(g: Generation, env: RunEnv): seq<Event>
  {
    [SubmitEvent(g, env)]
    + match env.submit
      case SubmitThrew(t) => [Write(ThrownPatch(t))]
      case Submitted(rid) => [Write(ReplicateIdPatch(rid))] + PollTrace(env, rid, 0)
  }

  /** `processGeneration` on the row it finds (`None`: the record is absent). */
  function RunTrace(found: Option<Generation>, env: RunEnv): seq<Event>
  {
    if found.None? then [] else [Write(ProcessingPatch)] + AfterStart(found.value, env)
  }

  /** The table writes of a trace, in order. */
  function Writes(t: seq<Event>): seq<Patch>
  {
    if |t| == 0 then [] else (if t[0].Write? then [t[0].patch] else []) + Writes(t[1..])
  }

  /** The attempt numbers of the polls of a trace, in order. */
  function Polls(t: seq<Event>): seq<nat>
  {
    if |t| == 0 then [] else (if t[0].Poll? then [t[0].attempt] else []) + Polls(t[1..])
  }

  /** A row after a sequence of updates. */
  function ApplyAll(g: Generation, ps: seq<Patch>): Generation
  {
    if |ps| == 0 then g else Apply(ApplyAll(g, ps[..|ps| - 1]), ps[|ps| - 1])
  }

  /** The table after the writes of a trace to row `id`. */
  function ApplyTrace(rows: map<int, Generation>, id: int, t: seq<Event>): map<int, Generation>
  {
    if id in rows then rows[id := ApplyAll(rows[id], Writes(t))] else rows
  }

  lemma {:induction false} WritesAppend(a: seq<Event>, b: seq<Event>)
    ensures Writes(a + b) == Writes(a) + Writes(b)
    ensures Polls(a + b) == Polls(a) + Polls(b)
  {
    if |a| > 0 {
      assert (a + b)[1..] == a[1..] + b;
      WritesAppend(a[1..], b);
    } else {
      assert a + b == b;
    }
  }

  lemma ApplyAllAppend(g: Generation, ps: seq<Patch>, p: Patch)
    ensures ApplyAll(g, ps + [p]) == Apply(ApplyAll(g, ps), p)
  {
    assert (ps + [p])[..|ps|] == ps;
  }

  // ---------------------------------------------------------------- what the trace says

  /** The single patch a terminal reply leads to. */
  function TerminalPatch(env: RunEnv, r: PollReply): Patch
    requires Terminal(r)
  {
    if r.PollThrew? then ThrownPatch(r.thrown)
    else if Succeeds(r) then
      match DownloadOutcome(env, OutputUrl(r.prediction.output))
      case Done => CompletedPatch(env.resultPath)
      case Threw(t) => ThrownPatch(t)
    else FailedPatch(OrText(r.prediction.error, UnknownError))
  }

  lemma TerminalTraceFacts(env: RunEnv, r: PollReply)
    requires Terminal(r)
    ensures var t := TerminalTrace(env, r);
      && Writes(t) == [TerminalPatch(env, r)] && Polls(t) == []
      && |t| > 0 && t[|t| - 1] == Write(TerminalPatch(env, r))
  {
    var t := TerminalTrace(env, r);
    if Succeeds(r) {
      var d := DownloadTrace(env, OutputUrl(r.prediction.output));
      WritesAppend([Download(OutputUrl(r.prediction.output), env.resultPath)], d);
    }
  }

  ghost predicate NoTerminalFrom(env: RunEnv, a: nat)
  {
    forall i :: a <= i < MaxAttempts ==> !Terminal(env.polls(i))
  }

  /** The polls are the attempts `a, a + 1, ...` in order. */
  ghost predicate Consecutive(ps: seq<nat>, a: nat)
  {
    forall i :: 0 <= i < |ps| ==> ps[i] == a + i
  }

  /** The trace writes once, and that write is its last event. */
  ghost predicate OneFinalWrite(t: seq<Event>)
  {
    |Writes(t)| == 1 && |t| > 0 && t[|t| - 1] == Write(Writes(t)[0])
  }

  /** Replies `a .. a + n - 2` are not terminal, reply `a + n - 1` is. */
  ghost predicate StopsAfter(env: RunEnv, a: nat, n: nat)
  {
    n >= 1 && Terminal(env.polls(a + n - 1)) && forall i :: a <= i < a + n - 1 ==> !Terminal(env.polls(i))
  }

  lemma HeadFacts(rid: string, a: nat)
    ensures Writes([Wait(PollIntervalMs), Poll(rid, a)]) == []
    ensures Polls([Wait(PollIntervalMs), Poll(rid, a)]) == [a]
  {
    var h := [Wait(PollIntervalMs), Poll(rid, a)];
    assert Writes([Poll(rid, a)]) == [] && Polls([Poll(rid, a)]) == [a] by {
      assert [Poll(rid, a)][1..] == [];
    }
    assert h[1..] == [Poll(rid, a)];
  }

  /** What follows attempt `a`'s poll. */
  function AfterPoll(env: RunEnv, rid: string, a: nat): seq<Event>
    requires a < MaxAttempts
  {
    if Terminal(env.polls(a)) then TerminalTrace(env, env.polls(a)) else PollTrace(env, rid, a + 1)
  }

  /** One round of the loop: a wait and a poll, and no write, before what follows. */
  lemma PollStep(env: RunEnv, rid: string, a: nat)
    requires a < MaxAttempts
    ensures var t, rest := PollTrace(env, rid, a), AfterPoll(env, rid, a);
      && t == [Wait(PollIntervalMs), Poll(rid, a)] + rest
      && Writes(t) == Writes(rest) && Polls(t) == [a] + Polls(rest)
  {
    HeadFacts(rid, a);
    WritesAppend([Wait(PollIntervalMs), Poll(rid, a)], AfterPoll(env, rid, a));
  }

  lemma EndsLikeSuffix(h: seq<Event>, t: seq<Event>)
    requires OneFinalWrite(t) && Writes(h + t) == Writes(t)
    ensures OneFinalWrite(h + t)
  {
    assert (h + t)[|h + t| - 1] == t[|t| - 1];
  }

  /** The loop polls consecutive attempts, at most up to attempt 59, and writes exactly once, last. */
  lemma {:induction false} PollShape(env: RunEnv, rid: string, a: nat)
    requires a <= MaxAttempts
    decreases MaxAttempts - a
    ensures Consecutive(Polls(PollTrace(env, rid, a)), a)
    ensures |Polls(PollTrace(env, rid, a))| <= MaxAttempts - a
    ensures OneFinalWrite(PollTrace(env, rid, a))
  {
    if a < MaxAttempts {
      PollStep(env, rid, a);
      var rest := AfterPoll(env, rid, a);
      if Terminal(env.polls(a)) {
        TerminalTraceFacts(env, env.polls(a));
      } else {
        PollShape(env, rid, a + 1);
      }
      EndsLikeSuffix([Wait(PollIntervalMs), Poll(rid, a)], rest);
    }
  }

  /** With no terminal reply from attempt `a` on, the loop polls every remaining attempt and writes the timeout. */
  lemma {:induction false} PollTimeout(env: RunEnv, rid: string, a: nat)
    requires a <= MaxAttempts && NoTerminalFrom(env, a)
    decreases MaxAttempts - a
    ensures |Polls(PollTrace(env, rid, a))| == MaxAttempts - a
    ensures Writes(PollTrace(env, rid, a)) == [FailedPatch(TimeoutMessage)]
  {
    if a < MaxAttempts {
      PollStep(env, rid, a);
      assert !Terminal(env.polls(a));
      PollTimeout(env, rid, a + 1);
    } else {
      WritesOne(Write(FailedPatch(TimeoutMessage)));
    }
  }

  /** A reply that is not terminal extends the stretch before the stop by one. */
  lemma StopsAfterStep(env: RunEnv, a: nat, n: nat)
    requires StopsAfter(env, a + 1, n) && !Terminal(env.polls(a))
    ensures StopsAfter(env, a, n + 1)
  {
    assert a + (n + 1) - 1 == (a + 1) + n - 1;
  }

  /** A terminal reply at attempt `a` ends the loop there. */
  lemma PollEndsHere(env: RunEnv, rid: string, a: nat)
    requires a < MaxAttempts && Terminal(env.polls(a))
    ensures var t := PollTrace(env, rid, a);
      |Polls(t)| == 1 && Writes(t) == [TerminalPatch(env, env.polls(a))]
  {
    PollStep(env, rid, a);
    TerminalTraceFacts(env, env.polls(a));
  }

  /** With a terminal reply from attempt `a` on, the loop stops at the first one and writes its patch. */
  lemma {:induction false} PollEarly(env: RunEnv, rid: string, a: nat)
    requires a <= MaxAttempts && !NoTerminalFrom(env, a)
    decreases MaxAttempts - a
    ensures var t := PollTrace(env, rid, a);
      StopsAfter(env, a, |Polls(t)|) && Writes(t) == [TerminalPatch(env, env.polls(a + |Polls(t)| - 1))]
  {
    assert a < MaxAttempts;
    if Terminal(env.polls(a)) {
      PollEndsHere(env, rid, a);
    } else {
      assert !NoTerminalFrom(env, a + 1);
      PollEarly(env, rid, a + 1);
      PollStep(env, rid, a);
      var n := |Polls(PollTrace(env, rid, a + 1))|;
      StopsAfterStep(env, a, n);
      assert a + (n + 1) - 1 == (a + 1) + n - 1;
    }
  }

  /**
   * The loop stops at the first terminal reply and writes that reply's patch;
   * when no reply from attempt `a` to 59 is terminal it polls all of them and
   * writes the timeout.
   */
  lemma PollStop(env: RunEnv, rid: string, a: nat)
    requires a <= MaxAttempts
    ensures var t := PollTrace(env, rid, a);
      NoTerminalFrom(env, a) ==> |Polls(t)| == MaxAttempts - a && Writes(t) == [FailedPatch(TimeoutMessage)]
    ensures var t := PollTrace(env, rid, a);
      !NoTerminalFrom(env, a) ==>
        StopsAfter(env, a, |Polls(t)|) && Writes(t) == [TerminalPatch(env, env.polls(a + |Polls(t)| - 1))]
  {
    if NoTerminalFrom(env, a) {
      PollTimeout(env, rid, a);
    } else {
      PollEarly(env, rid, a);
    }
  }

  /** With the record absent the run does nothing at all. */
  lemma RunWithoutRecord(env: RunEnv)
    ensures RunTrace(None, env) == []
  {
  }

  lemma WritesOne(e: Event)
    ensures Writes([e]) == (if e.Write? then [e.patch] else [])
    ensures Polls([e]) == (if e.Poll? then [e.attempt] else [])
  {
    assert [e][1..] == [];
  }

  lemma Writes3(x: Event, y: Event, z: Event)
    ensures Writes([x, y, z]) == Writes([x]) + Writes([y]) + Writes([z])
    ensures Polls([x, y, z]) == Polls([x]) + Polls([y]) + Polls([z])
  {
    assert [x, y, z] == [x] + ([y] + [z]);
    WritesAppend([x], [y] + [z]);
    WritesAppend([y], [z]);
  }

  /** The opening of a run: the `processing` write, the submission, and the write its answer leads to. */
  lemma OpeningFacts(s: Event, p: Patch)
    requires s.Submit?
    ensures Writes([Write(ProcessingPatch), s, Write(p)]) == [ProcessingPatch, p]
    ensures Polls([Write(ProcessingPatch), s, Write(p)]) == []
  {
    Writes3(Write(ProcessingPatch), s, Write(p));
    WritesOne(Write(ProcessingPatch));
    WritesOne(s);
    WritesOne(Write(p));
  }

  /** When the submission throws, the run is the opening alone. */
  lemma RunSplitThrew(g: Generation, env: RunEnv)
    requires env.submit.SubmitThrew?
    ensures var t, s := RunTrace(Some(g), env), SubmitEvent(g, env);
      && t == [Write(ProcessingPatch), s, Write(ThrownPatch(env.submit.thrown))]
      && Writes(t) == [ProcessingPatch, ThrownPatch(env.submit.thrown)] && Polls(t) == []
  {
    OpeningFacts(SubmitEvent(g, env), ThrownPatch(env.submit.thrown));
  }

  /** Once submitted, the run is the opening followed by the polling loop. */
  lemma RunSplitSubmitted(g: Generation, env: RunEnv)
    requires env.submit.Submitted?
    ensures var t, s, rid := RunTrace(Some(g), env), SubmitEvent(g, env), env.submit.predictionId;
      && t == [Write(ProcessingPatch), s, Write(ReplicateIdPatch(rid))] + PollTrace(env, rid, 0)
      && Writes(t) == [ProcessingPatch, ReplicateIdPatch(rid)] + Writes(PollTrace(env, rid, 0))
      && Polls(t) == Polls(PollTrace(env, rid, 0))
  {
    var s, rid := SubmitEvent(g, env), env.submit.predictionId;
    var start := [Write(ProcessingPatch)];
    var opening, loop := [Write(ProcessingPatch), s, Write(ReplicateIdPatch(rid))], PollTrace(env, rid, 0);
    AfterStartSubmitted(g, env, start);
    assert start + [s] + [Write(ReplicateIdPatch(rid))] == opening;
    assert RunTrace(Some(g), env) == opening + loop;
    OpeningFacts(s, ReplicateIdPatch(rid));
    WritesAppend(opening, loop);
  }

  /**
   * With the record present: `processing` is written first, before any
   * outside call; the submission comes next, with the hash of the model
   * version, and sends the row's own model image (no preprocessing); once
   * submitted, the prediction id is written straight after, then the loop
   * polls attempts 0, 1, ... at most 60 times.
   */
  lemma RunOrder(g: Generation, env: RunEnv)
    ensures var t := RunTrace(Some(g), env);
      && |t| >= 3 && t[0] == Write(ProcessingPatch)
      && t[1] == Submit(Replicate.VersionHash, Replicate.Input(Request(g, env)))
      && t[1].input.humanImg == "file://" + env.resolve(g.modelImage)
      && (env.submit.SubmitThrew? ==> Polls(t) == [])
      && (env.submit.Submitted? ==>
            && t[2] == Write(ReplicateIdPatch(env.submit.predictionId))
            && Consecutive(Polls(t), 0) && 1 <= |Polls(t)| <= MaxAttempts)
  {
    Replicate.VersionIsHash();
    if env.submit.Submitted? {
      var rid := env.submit.predictionId;
      RunSplitSubmitted(g, env);
      PollShape(env, rid, 0);
      PollStep(env, rid, 0);
    } else {
      RunSplitThrew(g, env);
    }
  }

  /**
   * With the record present the run writes `processing`, then the prediction
   * id if the submission worked, then one terminal patch, which is its last event.
   */
  lemma RunWrites(g: Generation, env: RunEnv)
    ensures var t := RunTrace(Some(g), env);
      && |t| > 0 && t[|t| - 1].Write?
      && (env.submit.SubmitThrew? ==> Writes(t) == [ProcessingPatch, ThrownPatch(env.submit.thrown)])
      && (env.submit.Submitted? ==>
            |Writes(t)| == 3 && Writes(t)[..2] == [ProcessingPatch, ReplicateIdPatch(env.submit.predictionId)]
            && t[|t| - 1] == Write(Writes(t)[2]))
  {
    if env.submit.Submitted? {
      var rid := env.submit.predictionId;
      var t, rest := RunTrace(Some(g), env), PollTrace(env, rid, 0);
      RunSplitSubmitted(g, env);
      PollShape(env, rid, 0);
      assert t[|t| - 1] == rest[|rest| - 1];
    } else {
      RunSplitThrew(g, env);
    }
  }

  /** The first terminal reply is at attempt `k`. */
  ghost predicate FirstTerminalAt(env: RunEnv, k: nat)
  {
    k < MaxAttempts && Terminal(env.polls(k)) && forall j :: 0 <= j < k ==> !Terminal(env.polls(j))
  }

  lemma FirstTerminalUnique(env: RunEnv, k: nat, m: nat)
    requires FirstTerminalAt(env, k) && FirstTerminalAt(env, m)
    ensures k == m
  {
  }

  /** The one patch the loop writes. */
  function LoopPatch(env: RunEnv, rid: string): Patch
  {
    PollShape(env, rid, 0);
    Writes(PollTrace(env, rid, 0))[0]
  }

  /** No terminal reply: the loop's write is the timeout. */
  lemma PollOutcomeTimeout(env: RunEnv, rid: string)
    requires NoTerminalFrom(env, 0)
    ensures LoopPatch(env, rid) == FailedPatch(TimeoutMessage)
    ensures forall k: nat :: !FirstTerminalAt(env, k)
  {
    PollStop(env, rid, 0);
    forall k: nat ensures !FirstTerminalAt(env, k) {
      if k < MaxAttempts {
        assert !Terminal(env.polls(k));
      }
    }
  }

  /** Some terminal reply: the loop's write is the patch of the first one. */
  lemma PollOutcomeStop(env: RunEnv, rid: string) returns (k: nat)
    requires !NoTerminalFrom(env, 0)
    ensures FirstTerminalAt(env, k)
    ensures LoopPatch(env, rid) == TerminalPatch(env, env.polls(k))
  {
    PollStop(env, rid, 0);
    k := |Polls(PollTrace(env, rid, 0))| - 1;
  }

  /**
   * The loop's write: completed with the result file exactly when the first
   * terminal reply is a success naming a URL and the download works; the
   * timeout when no reply is terminal; otherwise failed with an error text.
   */
  lemma PollOutcome(env: RunEnv, rid: string)
    ensures var f := LoopPatch(env, rid);
      && f.replicateId.None?
      && (f.status == Some(Completed) || f.status == Some(Failed))
      && (f.status == Some(Completed) <==>
            env.download.Done? && exists k :: FirstTerminalAt(env, k) && SucceedsWithUrl(env.polls(k)))
      && (f.status == Some(Completed) ==> f == CompletedPatch(env.resultPath))
      && (f.status == Some(Failed) ==> f.error.Some? && f.resultImage.None?)
      && (NoTerminalFrom(env, 0) ==> f == FailedPatch(TimeoutMessage))
  {
    if NoTerminalFrom(env, 0) {
      PollOutcomeTimeout(env, rid);
    } else {
      var k := PollOutcomeStop(env, rid);
      forall m | FirstTerminalAt(env, m) ensures m == k {
        FirstTerminalUnique(env, k, m);
      }
    }
  }

  /**
   * A success whose output is an empty list still counts as a success with
   * output (an array is truthy), but `fetch(undefined)` throws: the run fails.
   */
  lemma EmptyOutputFails(env: RunEnv, rid: string, k: nat)
    requires FirstTerminalAt(env, k) && env.polls(k).Polled?
    requires env.polls(k).prediction.status == "succeeded" && env.polls(k).prediction.output == ListOutput([])
    ensures LoopPatch(env, rid) == ThrownPatch(env.noUrl)
    ensures LoopPatch(env, rid).status == Some(Failed)
  {
    assert !NoTerminalFrom(env, 0) by {
      assert Terminal(env.polls(k));
    }
    var m := PollOutcomeStop(env, rid);
    FirstTerminalUnique(env, k, m);
  }

  lemma ApplyTwo(g: Generation, a: Patch, b: Patch)
    ensures ApplyAll(g, [a, b]) == Apply(Apply(g, a), b)
  {
    assert [a, b][..1] == [a];
    assert [a][..0] == [];
    assert ApplyAll(g, [a]) == Apply(g, a);
  }

  lemma ApplyThree(g: Generation, a: Patch, b: Patch, c: Patch)
    ensures ApplyAll(g, [a, b, c]) == Apply(Apply(Apply(g, a), b), c)
  {
    assert [a, b, c][..2] == [a, b];
    ApplyTwo(g, a, b);
  }

  /** The writes of a run, spelled out. */
  lemma RunWriteList(g: Generation, env: RunEnv)
    ensures Writes(RunTrace(Some(g), env)) ==
      if env.submit.SubmitThrew? then [ProcessingPatch, ThrownPatch(env.submit.thrown)]
      else [ProcessingPatch, ReplicateIdPatch(env.submit.predictionId), LoopPatch(env, env.submit.predictionId)]
  {
    if env.submit.Submitted? {
      RunSplitSubmitted(g, env);
      PollShape(env, env.submit.predictionId, 0);
    } else {
      RunSplitThrew(g, env);
    }
  }

  /**
   * The row a run leaves: terminal status (never pending or processing),
   * completed exactly when the first terminal reply is a success naming a URL
   * and the download works, the timeout error when no reply is terminal; the
   * prediction id recorded once submitted; images, parameters and timestamp
   * untouched.
   */
  lemma RunFinalRow(g: Generation, env: RunEnv)
    ensures var r := ApplyAll(g, Writes(RunTrace(Some(g), env)));
      && (r.status == Completed || r.status == Failed)
      && (r.status == Completed <==>
            env.submit.Submitted? && env.download.Done?
            && exists k :: FirstTerminalAt(env, k) && SucceedsWithUrl(env.polls(k)))
      && (r.status == Completed ==> r.resultImage == Some(env.resultPath) && r.error == g.error)
      && (r.status == Failed ==> r.error.Some? && r.resultImage == g.resultImage)
      && (env.submit.Submitted? && NoTerminalFrom(env, 0) ==> r.error == Some(TimeoutMessage))
      && r.replicateId == (if env.submit.Submitted? then Some(env.submit.predictionId) else g.replicateId)
      && r.id == g.id && r.modelImage == g.modelImage && r.garmentImage == g.garmentImage
      && r.backgroundImage == g.backgroundImage && r.backgroundPrompt == g.backgroundPrompt
      && r.params == g.params && r.createdAt == g.createdAt
  {
    RunWriteList(g, env);
    match env.submit
    case Submitted(rid) =>
      PollOutcome(env, rid);
      ApplyThree(g, ProcessingPatch, ReplicateIdPatch(rid), LoopPatch(env, rid));
    case SubmitThrew(th) =>
      ApplyTwo(g, ProcessingPatch, ThrownPatch(th));
  }

  // ---------------------------------------------------------------- the run, as a method

  lemma ApplyTraceEmpty(rows: map<int, Generation>, id: int)
    ensures ApplyTrace(rows, id, []) == rows
  {
  }

  /** Events other than writes leave the table as it is. */
  lemma ApplyTraceSilent(rows: map<int, Generation>, id: int, t: seq<Event>, more: seq<Event>)
    requires Writes(more) == []
    ensures ApplyTrace(rows, id, t + more) == ApplyTrace(rows, id, t)
  {
    WritesAppend(t, more);
    assert Writes(t) + [] == Writes(t);
  }

  /** Logging one more write to the trace applies that write to the row, if there is one. */
  lemma ApplyTraceStep(rows: map<int, Generation>, id: int, trace: seq<Event>, patch: Patch)
    ensures var before := ApplyTrace(rows, id, trace);
      ApplyTrace(rows, id, trace + [Write(patch)])
      == if id in before then before[id := Apply(before[id], patch)] else before
  {
    WritesAppend(trace, [Write(patch)]);
    WritesOne(Write(patch));
    if id in rows {
      ApplyAllAppend(rows[id], Writes(trace), patch);
    }
  }

  /** One `updateGeneration` call of the run, logged in the trace. */
  method Record(db: GenerationTable, id: int, patch: Patch, ghost rows0: map<int, Generation>, trace: seq<Event>)
    returns (next: seq<Event>)
    requires db.Valid() && !IsEmpty(patch)
    requires db.rows == ApplyTrace(rows0, id, trace)
    modifies db
    ensures db.Valid() && db.nextId == old(db.nextId)
    ensures next == trace + [Write(patch)]
    ensures db.rows == ApplyTrace(rows0, id, next)
  {
    ApplyTraceStep(rows0, id, trace, patch);
    var accepted := db.Update(id, patch);
    next := trace + [Write(patch)];
  }

  /** The synchronous start of `processGeneration`: read the row and mark it processing. */
  method BeginRun(db: GenerationTable, id: int) returns (found: Option<Generation>, trace: seq<Event>)
    requires db.Valid()
    modifies db
    ensures db.Valid() && db.nextId == old(db.nextId)
    ensures found == Lookup(old(db.rows), id)
    ensures trace == if found.Some? then [Write(ProcessingPatch)] else []
    ensures db.rows == ApplyTrace(old(db.rows), id, trace)
  {
    found := db.Get(id);
    trace := [];
    ApplyTraceEmpty(db.rows, id);
    if found.Some? {
      trace := Record(db, id, ProcessingPatch, old(db.rows), trace);
    }
  }

  /** The branches for a reply that ends the loop: download and complete, or fail. */
  method Settle(db: GenerationTable, id: int, env: RunEnv, reply: PollReply,
                ghost rows0: map<int, Generation>, trace: seq<Event>)
    returns (next: seq<Event>)
    requires Terminal(reply)
    requires db.Valid() && db.rows == ApplyTrace(rows0, id, trace)
    modifies db
    ensures db.Valid() && db.nextId == old(db.nextId)
    ensures next == trace + TerminalTrace(env, reply)
    ensures db.rows == ApplyTrace(rows0, id, next)
  {
    if reply.PollThrew? {
      next := Record(db, id, ThrownPatch(reply.thrown), rows0, trace);
      return;
    }
    var p := reply.prediction;
    if p.status == "succeeded" && TruthyOutput(p.output) {
      var download := Download(OutputUrl(p.output), env.resultPath);
      WritesOne(download);
      ApplyTraceSilent(rows0, id, trace, [download]);
      var outcome := DownloadOutcome(env, OutputUrl(p.output));
      var patch := if outcome.Done? then CompletedPatch(env.resultPath) else ThrownPatch(outcome.thrown);
      next := Record(db, id, patch, rows0, trace + [download]);
    } else {
      next := Record(db, id, FailedPatch(OrText(p.error, UnknownError)), rows0, trace);
    }
  }

  /** One round of the loop: the wait and the poll change no row, and what follows depends on the reply. */
  lemma LoopRound(env: RunEnv, rid: string, a: nat, rows0: map<int, Generation>, id: int,
                  trace: seq<Event>, goal: seq<Event>)
    requires a < MaxAttempts && trace + PollTrace(env, rid, a) == goal
    ensures var next := trace + [Wait(PollIntervalMs), Poll(rid, a)];
      && ApplyTrace(rows0, id, next) == ApplyTrace(rows0, id, trace)
      && (Terminal(env.polls(a)) ==> next + TerminalTrace(env, env.polls(a)) == goal)
      && (!Terminal(env.polls(a)) ==> next + PollTrace(env, rid, a + 1) == goal)
  {
    var head := [Wait(PollIntervalMs), Poll(rid, a)];
    PollStep(env, rid, a);
    HeadFacts(rid, a);
    ApplyTraceSilent(rows0, id, trace, head);
    assert trace + head + AfterPoll(env, rid, a) == goal;
  }

  /** `trace` followed by the loop from attempt `a` on is the whole trace `goal`. */
  ghost predicate Remaining(env: RunEnv, rid: string, a: nat, trace: seq<Event>, goal: seq<Event>)
  {
    trace + PollTrace(env, rid, a) == goal
  }

  /**
   * The body of the loop for attempt `a`: wait, poll, and settle a terminal
   * reply. `goal` is the whole trace the run is to leave.
   */
  method Round(db: GenerationTable, id: int, env: RunEnv, rid: string, a: nat,
               ghost rows0: map<int, Generation>, ghost goal: seq<Event>, trace: seq<Event>)
    returns (next: seq<Event>, stop: bool)
    requires a < MaxAttempts && Remaining(env, rid, a, trace, goal)
    requires db.Valid() && db.rows == ApplyTrace(rows0, id, trace)
    modifies db
    ensures db.Valid() && db.nextId == old(db.nextId)
    ensures db.rows == ApplyTrace(rows0, id, next)
    ensures stop == Terminal(env.polls(a))
    ensures stop ==> next == goal
    ensures !stop ==> Remaining(env, rid, a + 1, next, goal)
  {
    LoopRound(env, rid, a, rows0, id, trace, goal);
    next := trace + [Wait(PollIntervalMs), Poll(rid, a)];
    var reply := env.polls(a);
    stop := Terminal(reply);
    if stop {
      next := Settle(db, id, env, reply, rows0, next);
    }
  }

  /**
   * The `while (attempts < maxAttempts)` loop, written as a `for` loop over
   * the attempt numbers 0 to 59 that breaks where the source does: it ends at
   * the first terminal reply, with the trace complete, or after the last
   * attempt, with only the timeout check left. `attempts` is the attempt
   * that broke the loop, or 60.
   */
  method PollRounds(db: GenerationTable, id: int, env: RunEnv, rid: string,
                    ghost rows0: map<int, Generation>, ghost goal: seq<Event>, prefix: seq<Event>)
    returns (trace: seq<Event>, attempts: nat)
    requires Remaining(env, rid, 0, prefix, goal)
    requires db.Valid() && db.rows == ApplyTrace(rows0, id, prefix)
    modifies db
    ensures db.Valid() && db.nextId == old(db.nextId)
    ensures db.rows == ApplyTrace(rows0, id, trace)
    ensures attempts <= MaxAttempts
    ensures attempts < MaxAttempts ==> trace == goal
    ensures attempts >= MaxAttempts ==> Remaining(env, rid, attempts, trace, goal)
  {
    trace := prefix;
    attempts := MaxAttempts;
    for i := 0 to MaxAttempts
      invariant Remaining(env, rid, i, trace, goal)
      invariant db.Valid() && db.nextId == old(db.nextId)
      invariant db.rows == ApplyTrace(rows0, id, trace)
    {
      var stop;
      trace, stop := Round(db, id, env, rid, i, rows0, goal, trace);
      if stop {
        attempts := i;
        break;
      }
    }
  }

  /** The loop and the timeout check after it. */
  method PollLoop(db: GenerationTable, id: int, env: RunEnv, rid: string,
                  ghost rows0: map<int, Generation>, prefix: seq<Event>)
    returns (trace: seq<Event>)
    requires db.Valid() && db.rows == ApplyTrace(rows0, id, prefix)
    modifies db
    ensures db.Valid() && db.nextId == old(db.nextId)
    ensures trace == prefix + PollTrace(env, rid, 0)
    ensures db.rows == ApplyTrace(rows0, id, trace)
  {
    ghost var goal := prefix + PollTrace(env, rid, 0);
    var attempts;
    trace, attempts := PollRounds(db, id, env, rid, rows0, goal, prefix);
    if attempts >= MaxAttempts {
      assert PollTrace(env, rid, attempts) == [Write(FailedPatch(TimeoutMessage))];
      trace := Record(db, id, FailedPatch(TimeoutMessage), rows0, trace);
    }
  }

  lemma Regroup(p: seq<Event>, a: seq<Event>, b: seq<Event>, c: seq<Event>)
    ensures p + (a + b) == p + a + b
    ensures p + (a + (b + c)) == p + a + b + c
  {
  }

  /** `AfterStart` for a submission that threw. */
  lemma AfterStartThrew(g: Generation, env: RunEnv, prefix: seq<Event>)
    requires env.submit.SubmitThrew?
    ensures prefix + AfterStart(g, env) == prefix + [SubmitEvent(g, env)] + [Write(ThrownPatch(env.submit.thrown))]
  {
    var a, b := [SubmitEvent(g, env)], [Write(ThrownPatch(env.submit.thrown))];
    assert AfterStart(g, env) == a + b;
    Regroup(prefix, a, b, []);
  }

  /** `AfterStart` for a submission that returned a prediction id. */
  lemma AfterStartSubmitted(g: Generation, env: RunEnv, prefix: seq<Event>)
    requires env.submit.Submitted?
    ensures prefix + AfterStart(g, env)
         == prefix + [SubmitEvent(g, env)] + [Write(ReplicateIdPatch(env.submit.predictionId))]
            + PollTrace(env, env.submit.predictionId, 0)
  {
    var a, b := [SubmitEvent(g, env)], [Write(ReplicateIdPatch(env.submit.predictionId))];
    var c := PollTrace(env, env.submit.predictionId, 0);
    assert AfterStart(g, env) == a + (b + c);
    Regroup(prefix, a, b, c);
  }

  /** The rest of `processGeneration`: submit, record the prediction id, poll. */
  method FinishRun(db: GenerationTable, id: int, g: Generation, env: RunEnv,
                   ghost rows0: map<int, Generation>, prefix: seq<Event>)
    returns (trace: seq<Event>)
    requires db.Valid() && db.rows == ApplyTrace(rows0, id, prefix)
    modifies db
    ensures db.Valid() && db.nextId == old(db.nextId)
    ensures trace == prefix + AfterStart(g, env)
    ensures db.rows == ApplyTrace(rows0, id, trace)
  {
    var submit := SubmitEvent(g, env);
    WritesOne(submit);
    ApplyTraceSilent(rows0, id, prefix, [submit]);
    trace := prefix + [submit];
    if env.submit.SubmitThrew? {
      AfterStartThrew(g, env, prefix);
      trace := Record(db, id, ThrownPatch(env.submit.thrown), rows0, trace);
    } else {
      var rid := env.submit.predictionId;
      AfterStartSubmitted(g, env, prefix);
      trace := Record(db, id, ReplicateIdPatch(rid), rows0, trace);
      trace := PollLoop(db, id, env, rid, rows0, trace);
    }
  }

  /**
   * `processGeneration`: the whole run on row `id`; its trace is `RunTrace`
   * of the row it found, and the table is the old one with that trace's
   * writes applied to row `id`.
   */
  method ProcessGeneration(db: GenerationTable, id: int, env: RunEnv) returns (trace: seq<Event>)
    requires db.Valid()
    modifies db
    ensures db.Valid() && db.nextId == old(db.nextId)
    ensures trace == RunTrace(Lookup(old(db.rows), id), env)
    ensures db.rows == ApplyTrace(old(db.rows), id, trace)
  {
    var found;
    found, trace := BeginRun(db, id);
    if found.Some? {
      trace := FinishRun(db, id, found.value, env, old(db.rows), trace);
    }
  }

  // ---------------------------------------------------------------- create and retry

  /**
   * The parameter fields of a create or retry body: `parseInt(steps)` and
   * `parseFloat(guidance_scale)` (`None` for NaN or an absent field), whether
   * the `seed` field is truthy, and `parseInt(seed)`.
   */
  datatype ParamsInput = ParamsInput(
    steps: Option<int>, guidanceScale: Option<real>, seedGiven: bool, seed: Option<int>)

  /** A body without parameter fields. */
  const NoParams: ParamsInput := ParamsInput(None, None, false, None)

  /** `body.seed ? parseInt(body.seed) : fallback`, as the JSON `params` column keeps it. */
  function SeedFrom(input: ParamsInput, fallback: Seed): (s: Seed)
    ensures !input.seedGiven ==> s == fallback
    ensures input.seedGiven ==> s == (if input.seed.Some? then SeedValue(input.seed.value) else NullSeed)
  {
    if !input.seedGiven then fallback
    else if input.seed.Some? then SeedValue(input.seed.value)
    else NullSeed
  }

  /** The parameters of POST `/`: steps 12 and guidance 2.5 unless supplied and nonzero; a seed only if supplied. */
  function CreateParams(input: ParamsInput): Params
  {
    Params(IntOr(input.steps, DefaultSteps), RealOr(input.guidanceScale, DefaultGuidanceScale), SeedFrom(input, NoSeed))
  }

  /** The parameters of POST `/:id/retry`: each supplied nonzero value overrides the stored one. */
  function MergeParams(stored: Params, input: ParamsInput): Params
  {
    Params(IntOr(input.steps, stored.steps), RealOr(input.guidanceScale, stored.guidanceScale), SeedFrom(input, stored.seed))
  }

  /** Creating uses the same rule as retrying over the defaults `{ steps: 12, guidance_scale: 2.5 }`. */
  lemma CreateIsMergeOverDefaults(input: ParamsInput)
    ensures CreateParams(input) == MergeParams(Params(DefaultSteps, DefaultGuidanceScale, NoSeed), input)
    ensures CreateParams(input).steps != 0 && CreateParams(input).guidanceScale != 0.0
  {
  }

  /**
   * A retry keeps every stored value whose field is not supplied; applying the
   * same body twice is the same as applying it once; a body with no fields
   * keeps the parameters; the steps and guidance stay nonzero when they were.
   */
  lemma MergeFacts(stored: Params, input: ParamsInput)
    ensures MergeParams(stored, input).steps == (if input.steps.Some? && input.steps.value != 0 then input.steps.value else stored.steps)
    ensures MergeParams(stored, input).guidanceScale == RealOr(input.guidanceScale, stored.guidanceScale)
    ensures !input.seedGiven ==> MergeParams(stored, input).seed == stored.seed
    ensures MergeParams(MergeParams(stored, input), input) == MergeParams(stored, input)
    ensures MergeParams(stored, NoParams) == stored
    ensures stored.steps != 0 ==> MergeParams(stored, input).steps != 0
    ensures stored.guidanceScale != 0.0 ==> MergeParams(stored, input).guidanceScale != 0.0
  {
  }

  /** The body of the "accepts a valid request" API test: exactly `{ steps: 12, guidance_scale: 2.5 }`. */
  lemma CreateParamsExample()
    ensures CreateParams(ParamsInput(Some(12), Some(2.5), false, None)) == Params(12, 2.5, NoSeed)
  {
  }

  /** The uploaded files' paths (`None`: no file in that field) and the prompt field. */
  datatype CreateRequest = CreateRequest(
    modelImage: Option<string>, garmentImage: Option<string>, backgroundImage: Option<string>,
    backgroundPrompt: Option<string>, params: ParamsInput)

  /** The `createGeneration` argument of POST `/`, or `None` for the 400 reply. */
  function CreateRecord(req: CreateRequest): (r: Option<NewGeneration>)
    ensures r.Some? <==> req.modelImage.Some? && req.garmentImage.Some?
    ensures r.Some? ==> r.value.modelImage == req.modelImage.value && r.value.garmentImage == req.garmentImage.value
    ensures r.Some? ==> r.value.backgroundImage == req.backgroundImage && r.value.backgroundPrompt == req.backgroundPrompt
    ensures r.Some? ==> r.value.params == CreateParams(req.params)
  {
    if req.modelImage.None? || req.garmentImage.None? then None
    else Some(NewGeneration(req.modelImage.value, req.garmentImage.value,
                            req.backgroundImage, req.backgroundPrompt, CreateParams(req.params)))
  }

  /** `background_image || undefined` and `background_prompt || undefined`: a retry copies the stored row. */
  function RetryRecord(g: Generation, input: ParamsInput): NewGeneration
  {
    NewGeneration(g.modelImage, g.garmentImage, NullIfEmpty(g.backgroundImage), NullIfEmpty(g.backgroundPrompt),
                  MergeParams(g.params, input))
  }

  /** A row as the run's synchronous start leaves it: inserted, then marked processing. */
  function StartedRow(id: int, data: NewGeneration, now: int): (g: Generation)
    ensures g.id == id && g.status == Processing && g.createdAt == now
    ensures g.resultImage.None? && g.replicateId.None? && g.error.None?
    ensures g.modelImage == data.modelImage && g.garmentImage == data.garmentImage
    ensures g.backgroundImage == NullIfEmpty(data.backgroundImage) && g.backgroundPrompt == NullIfEmpty(data.backgroundPrompt)
    ensures g.params == data.params
  {
    Apply(NewRow(id, data, now), ProcessingPatch)
  }

  /** The new row of a retry has the images, background and prompt of the row it was made from. */
  lemma RetryCopies(g: Generation, input: ParamsInput, id: int, now: int)
    requires NullsStored(g)
    ensures var r := StartedRow(id, RetryRecord(g, input), now);
      && r.modelImage == g.modelImage && r.garmentImage == g.garmentImage
      && r.backgroundImage == g.backgroundImage && r.backgroundPrompt == g.backgroundPrompt
      && r.params == MergeParams(g.params, input)
  {
  }

  /** The JSON reply of create and retry. */
  datatype GenerationView = GenerationView(
    id: int, status: Status, resultUrl: Option<string>, params: Params, createdAt: int)

  /** `result_url: result_image || null`; `params` is the parsed column. */
  function View(g: Generation): (v: GenerationView)
    ensures v.id == g.id && v.status == g.status && v.params == g.params && v.createdAt == g.createdAt
    ensures v.resultUrl.Some? <==> TruthyText(g.resultImage)
  {
    GenerationView(g.id, g.status, NullIfEmpty(g.resultImage), g.params, g.createdAt)
  }

  datatype CreateReply = BadRequest(message: string) | Accepted(view: GenerationView)

  datatype RetryReply = RetryNotFound | Retried(view: GenerationView)

  /** Both routes reply with the new row in the `processing` state, no result, and its own parameters. */
  lemma StartedView(id: int, data: NewGeneration, now: int)
    ensures View(StartedRow(id, data, now)) == GenerationView(id, Processing, None, data.params, now)
  {
  }

  /** Inserts a row and runs the synchronous start of `processGeneration` on it. */
  method Launch(db: GenerationTable, data: NewGeneration, now: int) returns (view: GenerationView)
    requires db.Valid()
    modifies db
    ensures db.Valid() && db.nextId == old(db.nextId) + 1
    ensures db.rows == old(db.rows)[old(db.nextId) := StartedRow(old(db.nextId), data, now)]
    ensures view == View(StartedRow(old(db.nextId), data, now))
  {
    var id := db.Create(data, now);
    ghost var inserted := db.rows;
    var found, trace := BeginRun(db, id);
    assert Writes(trace) == [ProcessingPatch] by { WritesOne(Write(ProcessingPatch)); }
    assert ApplyAll(inserted[id], [ProcessingPatch]) == Apply(inserted[id], ProcessingPatch) by {
      assert [ProcessingPatch][..0] == [];
    }
    var g := db.Get(id);
    view := View(g.value);
  }

  /**
   * POST `/`: 400 without both images, the table untouched; otherwise a new
   * row under the next id, marked processing before the reply is built. The
   * rest of the run (`FinishRun`) goes on after the reply.
   */
  method CreateRoute(db: GenerationTable, req: CreateRequest, now: int) returns (reply: CreateReply)
    requires db.Valid()
    modifies db
    ensures db.Valid()
    ensures CreateRecord(req).None? ==>
      reply == BadRequest(MissingImagesMessage) && db.rows == old(db.rows) && db.nextId == old(db.nextId)
    ensures CreateRecord(req).Some? ==>
      && db.nextId == old(db.nextId) + 1
      && db.rows == old(db.rows)[old(db.nextId) := StartedRow(old(db.nextId), CreateRecord(req).value, now)]
      && reply == Accepted(View(StartedRow(old(db.nextId), CreateRecord(req).value, now)))
  {
    var data := CreateRecord(req);
    if data.None? {
      return BadRequest(MissingImagesMessage);
    }
    var view := Launch(db, data.value, now);
    reply := Accepted(view);
  }

  /**
   * POST `/:id/retry`: 404 when `parseInt(id)` is NaN or names no row;
   * otherwise a new row with the old row's images and prompt and the merged
   * parameters. The original row is never written.
   */
  method RetryRoute(db: GenerationTable, id: Option<int>, input: ParamsInput, now: int) returns (reply: RetryReply)
    requires db.Valid()
    modifies db
    ensures db.Valid()
    ensures (id.None? || id.value !in old(db.rows)) ==>
      reply == RetryNotFound && db.rows == old(db.rows) && db.nextId == old(db.nextId)
    ensures id.Some? && id.value in old(db.rows) ==>
      && db.nextId == old(db.nextId) + 1
      && db.rows == old(db.rows)[old(db.nextId) := StartedRow(old(db.nextId), RetryRecord(old(db.rows)[id.value], input), now)]
      && reply == Retried(View(db.rows[old(db.nextId)]))
    ensures id.Some? && id.value in old(db.rows) ==> id.value in db.rows && db.rows[id.value] == old(db.rows)[id.value]
  {
    if id.None? {
      return RetryNotFound;
    }
    var g := db.Get(id.value);
    if g.None? {
      return RetryNotFound;
    }
    var view := Launch(db, RetryRecord(g.value, input), now);
    reply := Retried(view);
  }
}
