/**
 The capture of one request id (project_a_capture_service/capture.py and audit.py): the ledger is
 written before the result file, a crash can fall between any two writes or within one, and
 files may be altered, removed or planted from outside.
 */
module CaptureRuns {
  import opened Outcomes

  /** A capture request: the time of its event, the bar time of its liquidity facts, whether it is
      for a baseline, and all the rest. Times are in microseconds. */
  datatype Request = Request(eventAt: int, liquidityAt: int, baseline: bool, rest: string) {
    /** A baseline's event is the liquidity event itself. */
    predicate Consistent() { baseline ==> liquidityAt == eventAt }

    /** At most five seconds ahead and thirty minutes back. */
    predicate Timely(now: int) { -5 * SECOND <= now - eventAt <= 1800 * SECOND }
  }

  const SECOND := 1000000

  /** A screenshot. It is also the path it is stored under: the file name carries the digest of
      the bytes, which is taken to fix them. */
  datatype Image = Image(name: string, bytes: string)

  /** The result document: its artifacts, by path and digest, and all the rest. */
  datatype Document = Document(details: string, artifacts: seq<Image>)

  datatype Content = Exact(document: Document) | Other(bytes: string)

  /** What a successful capture hands back. */
  datatype Package = Package(document: Document, images: seq<string>)

  datatype Flight = Shooting(images: seq<Image>) | Recorded(document: Document)

  datatype State = State(
    request: Option<Request>, pinned: Option<Document>, file: Option<Content>, images: map<Image, string>,
    flight: Option<Flight>, returned: seq<Package>)

  const EMPTY := State(None, None, None, map[], None, [])

  datatype Failure =
    | PlanMismatch | Expired | ReplayConflict | Unbound | ImageMissing | ImageDiffers | BackendFailed | ResultDiffers

  /** How far a write gets before the process or the disk fails. */
  datatype Write = Whole | Torn(bytes: string) | NotBegun

  datatype Move =
    | Begin(request: Request, now: int, planned: bool)
    | Shoot(image: Image, write: Write)
    | Record(details: string)
    | Publish(write: Write)
    | Abandon
    | AlterImage(path: Image, bytes: Option<string>)
    | AlterResult(content: Option<Content>)

  predicate Intact(images: map<Image, string>, artifacts: seq<Image>) {
    forall i | 0 <= i < |artifacts| :: artifacts[i] in images && images[artifacts[i]] == artifacts[i].bytes
  }

  function BytesOf(images: seq<Image>): seq<string> { seq(|images|, i requires 0 <= i < |images| => images[i].bytes) }

  /** `_load_replay`: the result file is put back to the pinned document where it is not so. */
  function Replay(s: State, document: Document): State {
    var restored := s.(file := Some(Exact(document)));
    if Intact(s.images, document.artifacts)
    then restored.(returned := s.returned + [Package(document, BytesOf(document.artifacts))])
    else restored
  }

  /** `capture` up to the first screenshot: the request's own times first, then the ledger decides
      between replay and a new attempt. */
  function BeginCapture(s: State, request: Request, now: int, planned: bool): State {
    if !request.Consistent() || !request.Timely(now) then s
    else if s.request.Some? && s.request.value != request then s
    else
      var known := s.(request := Some(request));
      if s.pinned.Some? then Replay(known, s.pinned.value)
      else if !planned || s.file.Some? then known
      else known.(flight := Some(Shooting([])))
  }

  /** `_write_immutable` for one screenshot. */
  function ShootImage(s: State, image: Image, write: Write): State
    requires s.flight.Some? && s.flight.value.Shooting?
  {
    if image in s.images then
      if s.images[image] == image.bytes then s.(flight := Some(Shooting(s.flight.value.images + [image])))
      else s.(flight := None)
    else
      match write
      case Whole =>
        s.(images := s.images[image := image.bytes], flight := Some(Shooting(s.flight.value.images + [image])))
      case Torn(bytes) => s.(images := s.images[image := bytes], flight := None)
      case NotBegun => s.(flight := None)
  }

  /** One move of the attempt in flight, or of the outside world. Captures of the service are
      serialized, so no second one begins while one is in flight. */
  function Step(s: State, move: Move): State {
    match move
    case Begin(request, now, planned) => if s.flight.None? then BeginCapture(s, request, now, planned) else s
    case Shoot(image, write) =>
      if s.flight.Some? && s.flight.value.Shooting? then ShootImage(s, image, write) else s
    case Record(details) =>
      if s.flight.Some? && s.flight.value.Shooting? then
        var document := Document(details, s.flight.value.images);
        if s.pinned.Some? && s.pinned.value != document then s.(flight := None)
        else s.(pinned := Some(document), flight := Some(Recorded(document)))
      else s
    case Publish(write) =>
      if s.flight.Some? && s.flight.value.Recorded? then
        var document := s.flight.value.document;
        if s.file.Some? && s.file.value != Exact(document) then s.(flight := None)
        else
          match write
          case Whole =>
            s.(file := Some(Exact(document)), flight := None,
               returned := s.returned + [Package(document, BytesOf(document.artifacts))])
          case Torn(bytes) => s.(file := if s.file.None? then Some(Other(bytes)) else s.file, flight := None)
          case NotBegun => s.(flight := None)
      else s
    case Abandon => s.(flight := None)
    case AlterImage(path, bytes) =>
      if bytes.Some? then s.(images := s.images[path := bytes.value]) else s.(images := s.images - {path})
    case AlterResult(content) => s.(file := content)
  }

  function Run(s: State, moves: seq<Move>): State {
    if moves == [] then s else Step(Run(s, moves[..|moves| - 1]), moves[|moves| - 1])
  }

  // ------------------------------------------------------ the invariant

  /** A result file exists only for a request whose result is in the ledger. */
  predicate FileBound(s: State) { s.file.Some? ==> s.pinned.Some? }

  predicate FlightOk(s: State) {
    s.flight.Some? ==>
      s.request.Some? &&
      (s.flight.value.Shooting? ==> s.pinned.None?) &&
      (s.flight.value.Recorded? ==> s.pinned == Some(s.flight.value.document))
  }

  /** Everything ever handed back is the pinned document with its pinned images. */
  predicate ReturnedOk(s: State) {
    (s.pinned.None? ==> s.returned == []) &&
    (s.pinned.Some? ==>
       forall i | 0 <= i < |s.returned| :: s.returned[i] == Package(s.pinned.value, BytesOf(s.pinned.value.artifacts)))
  }

  predicate Inv(s: State) {
    FlightOk(s) && ReturnedOk(s) && (s.pinned.Some? ==> s.request.Some?) &&
    (s.request.Some? ==> s.request.value.Consistent())
  }

  /** The move puts a result file where there was none. */
  predicate Plants(s: State, move: Move) { move.AlterResult? && move.content.Some? && s.file.None? }

  /** No move of the run plants a result file. */
  predicate NothingPlanted(s: State, moves: seq<Move>) {
    moves == [] ||
    (NothingPlanted(s, moves[..|moves| - 1]) && !Plants(Run(s, moves[..|moves| - 1]), moves[|moves| - 1]))
  }

  lemma StepKeepsBound(s: State, move: Move)
    requires Inv(s) && FileBound(s) && !Plants(s, move)
    ensures FileBound(Step(s, move))
  {
    hide Intact;
    hide BytesOf;
  }

  lemma {:induction false} RunKeepsBound(moves: seq<Move>)
    requires NothingPlanted(EMPTY, moves)
    ensures FileBound(Run(EMPTY, moves))
  {
    hide Step;
    hide Plants;
    if moves != [] {
      RunKeepsBound(moves[..|moves| - 1]);
      RunKeepsInv(EMPTY, moves[..|moves| - 1]);
      StepKeepsBound(Run(EMPTY, moves[..|moves| - 1]), moves[|moves| - 1]);
      hide Inv;
    }
  }

  lemma StepKeepsInv(s: State, move: Move)
    requires Inv(s)
    ensures Inv(Step(s, move)) && (s.pinned.Some? ==> Step(s, move).pinned == s.pinned)
    ensures s.request.Some? ==> Step(s, move).request == s.request
  {
    hide Intact;
    hide BytesOf;
  }

  lemma {:induction false} RunKeepsInv(s: State, moves: seq<Move>)
    requires Inv(s)
    ensures Inv(Run(s, moves)) && (s.pinned.Some? ==> Run(s, moves).pinned == s.pinned)
    ensures s.request.Some? ==> Run(s, moves).request == s.request
  {
    hide Step;
    hide Inv;
    if moves != [] {
      RunKeepsInv(s, moves[..|moves| - 1]);
      StepKeepsInv(Run(s, moves[..|moves| - 1]), moves[|moves| - 1]);
    }
  }

  /** In every run, with crashes between or within any writes and with files altered, removed or
      planted outside, all successful captures of the request return the same document and the same
      images; and unless a result file is planted, one exists only where the ledger holds the
      result. */
  lemma CapturesAgree(moves: seq<Move>)
    ensures var s := Run(EMPTY, moves);
            (NothingPlanted(EMPTY, moves) && s.file.Some? ==> s.pinned.Some?) &&
            forall i, j | 0 <= i < |s.returned| && 0 <= j < |s.returned| :: s.returned[i] == s.returned[j]
  {
    RunKeepsInv(EMPTY, moves);
    if NothingPlanted(EMPTY, moves) { RunKeepsBound(moves); }
    hide Run;
    hide BytesOf;
  }

  /** Once recorded, the result is what it is for ever. */
  lemma PinnedIsFinal(s: State, moves: seq<Move>)
    requires Inv(s) && s.pinned.Some?
    ensures Run(s, moves).pinned == s.pinned && Run(s, moves).request == s.request
  {
    RunKeepsInv(s, moves);
    hide Run;
  }

  /** A replay succeeds exactly when it is the recorded request, its event lies no further off than
      is allowed and every pinned image is there unaltered, whatever has become of the result file;
      that file is restored for the recorded request in time, and left alone otherwise. */
  lemma ReplaySucceedsIff(s: State, request: Request, now: int, planned: bool)
    requires Inv(s) && s.pinned.Some? && s.flight.None?
    ensures var next := Step(s, Begin(request, now, planned));
            (next.returned != s.returned <==>
               s.request == Some(request) && request.Timely(now) && Intact(s.images, s.pinned.value.artifacts)) &&
            next.file ==
              if s.request == Some(request) && request.Timely(now) then Some(Exact(s.pinned.value)) else s.file
  {
    hide BytesOf;
  }

  /** After a crash between the ledger row and the result file, the next capture of the request
      restores the file and returns the recorded result, if it comes in time. */
  lemma LostFileIsRestored(s: State, request: Request, now: int, planned: bool)
    requires Inv(s) && s.flight.Some? && s.flight.value.Recorded? && s.request == Some(request)
    requires Intact(s.images, s.pinned.value.artifacts)
    ensures var document := s.flight.value.document;
            var crashed := Step(s, Abandon);
            var next := Step(crashed, Begin(request, now, planned));
            if request.Timely(now)
            then next == crashed.(file := Some(Exact(document)),
                                  returned := s.returned + [Package(document, BytesOf(document.artifacts))])
            else next == crashed
  {
  }

  /** Past that time it is lost to captures for good: whatever they try then, nothing is handed
      back and no file restored. */
  lemma {:induction false} LateIsLost(s: State, moves: seq<Move>)
    requires Inv(s) && s.pinned.Some? && s.flight.None?
    requires forall m | m in moves :: !m.AlterResult? && (m.Begin? ==> !s.request.value.Timely(m.now))
    ensures var next := Run(s, moves);
            next.flight.None? && next.file == s.file && next.returned == s.returned && next.request == s.request
  {
    if moves != [] {
      assert moves[|moves| - 1] in moves;
      LateIsLost(s, moves[..|moves| - 1]);
      RunKeepsInv(s, moves[..|moves| - 1]);
      hide Intact;
      hide BytesOf;
      hide Inv;
    }
  }

  /** Without the ledger's row a result file is never trusted: as long as it is left there, whatever
      is tried, no capture begins, nothing is recorded and nothing handed back. */
  lemma {:induction false} UnboundFileStops(s: State, moves: seq<Move>)
    requires s.flight.None? && s.pinned.None? && s.file.Some? && forall m | m in moves :: !m.AlterResult?
    ensures var next := Run(s, moves);
            next.flight.None? && next.pinned.None? && next.file == s.file && next.returned == s.returned
  {
    if moves != [] {
      assert moves[|moves| - 1] in moves;
      UnboundFileStops(s, moves[..|moves| - 1]);
      hide Intact;
      hide BytesOf;
    }
  }

  /** A planted file does get a request there. */
  lemma PlantedFileStops(bytes: string, moves: seq<Move>)
    requires forall m | m in moves :: !m.AlterResult?
    ensures var s := Run(EMPTY, [AlterResult(Some(Other(bytes)))]);
            s.file.Some? && Run(s, moves).returned == [] && Run(s, moves).pinned.None?
  {
    var planting := [AlterResult(Some(Other(bytes)))];
    NoMoves(EMPTY);
    RunSnoc(EMPTY, [], planting[0]);
    assert [] + planting == planting;
    UnboundFileStops(Run(EMPTY, planting), moves);
    hide Run;
  }

  // ------------------------------------------------------ the engine and its store

  class CaptureStore {
    var request: Option<Request>
    var pinned: Option<Document>
    var file: Option<Content>
    var images: map<Image, string>
    ghost var flight: Option<Flight>
    ghost var returned: seq<Package>

    constructor ()
      ensures Contents() == EMPTY
    {
      request, pinned, file, images, flight, returned := None, None, None, map[], None, [];
    }

    ghost function Contents(): State
      reads this
    {
      State(request, pinned, file, images, flight, returned)
    }

    /** `begin_request`: the pinned result of a request seen before, if it has one. */
    method BeginRequest(asked: Request) returns (result: Result<Option<Document>, Failure>)
      modifies this`request
      ensures if old(request).Some? && old(request).value != asked
              then result == Err(ReplayConflict) && request == old(request)
              else result == Ok(pinned) && request == Some(asked)
    {
      if request.Some? && request.value != asked { return Err(ReplayConflict); }
      request := Some(asked);
      return Ok(pinned);
    }

    /** `record_result`. */
    method RecordResult(document: Document) returns (raised: Option<Failure>)
      modifies this`pinned
      ensures if old(pinned).Some? && old(pinned).value != document
              then raised == Some(ReplayConflict) && pinned == old(pinned)
              else raised == None && pinned == Some(document)
    {
      if pinned.Some? {
        return if pinned.value != document then Some(ReplayConflict) else None;
      }
      pinned := Some(document);
      return None;
    }

    /** `_write_immutable` for a screenshot. */
    method WriteImage(image: Image) returns (raised: Option<Failure>)
      modifies this`images
      ensures if image in old(images) && old(images)[image] != image.bytes
              then raised == Some(ImageDiffers) && images == old(images)
              else raised == None && images == old(images)[image := image.bytes]
    {
      if image in images {
        return if images[image] != image.bytes then Some(ImageDiffers) else None;
      }
      images := images[image := image.bytes];
      return None;
    }

    /** `_load_replay`: restore the result file, then collect the pinned images. */
    method LoadReplay(document: Document) returns (result: Result<Package, Failure>)
      modifies this`file
      ensures file == Some(Exact(document))
      ensures result.Ok? <==> Intact(images, document.artifacts)
      ensures result.Ok? ==> result.value == Package(document, BytesOf(document.artifacts))
    {
      if file != Some(Exact(document)) {
        file := Some(Exact(document));
      }
      var data: seq<string> := [];
      for n := 0 to |document.artifacts|
        invariant data == BytesOf(document.artifacts[..n])
        invariant Intact(images, document.artifacts[..n])
      {
        var path := document.artifacts[n];
        if path !in images { return Err(ImageMissing); }
        if images[path] != path.bytes { return Err(ImageDiffers); }
        data := data + [images[path]];
        assert BytesOf(document.artifacts[..n + 1]) == BytesOf(document.artifacts[..n]) + [path.bytes];
      }
      assert document.artifacts[..|document.artifacts|] == document.artifacts;
      return Ok(Package(document, data));
    }
  }

  lemma RunSnoc(s: State, moves: seq<Move>, move: Move)
    ensures Run(s, moves + [move]) == Step(Run(s, moves), move)
  {
    assert (moves + [move])[..|moves|] == moves;
  }

  /** The screenshots of `capture`, in the plan's order, until one fails. */
  method ShootAll(store: CaptureStore, plan: seq<string>, backend: seq<Option<string>>)
    returns (images: Option<seq<Image>>, ghost moves: seq<Move>)
    requires |backend| == |plan| && store.flight == Some(Shooting([]))
    modifies store
    ensures store.Contents() == Run(old(store.Contents()), moves)
    ensures store.flight == if images.Some? then Some(Shooting(images.value)) else None
    ensures store.request == old(store.request) && store.pinned == old(store.pinned) && store.file == old(store.file)
    ensures store.returned == old(store.returned)
  {
    hide Step;
    hide Run;
    ghost var before := store.Contents();
    var taken: seq<Image> := [];
    moves := [];
    assert Run(before, moves) == before by { NoMoves(before); }
    for n := 0 to |plan|
      invariant store.flight == Some(Shooting(taken)) && store.Contents() == Run(before, moves)
      invariant store.request == before.request && store.pinned == before.pinned && store.file == before.file
      invariant store.returned == before.returned
    {
      ghost var s := store.Contents();
      if backend[n].None? {
        RunSnoc(before, moves, Abandon);
        AbandonIs(s);
        store.flight := None;
        return None, moves + [Abandon];
      }
      var image := Image(plan[n], backend[n].value);
      RunSnoc(before, moves, Shoot(image, Whole));
      ShootIs(s, image, taken);
      moves := moves + [Shoot(image, Whole)];
      var raised := store.WriteImage(image);
      if raised.Some? {
        store.flight := None;
        return None, moves;
      }
      taken := taken + [image];
      store.flight := Some(Shooting(taken));
      assert s.images[image := image.bytes] == store.images;
    }
    return Some(taken), moves;
  }

  lemma NoMoves(s: State)
    ensures Run(s, []) == s
  {
  }

  lemma AbandonIs(s: State)
    ensures Step(s, Abandon) == s.(flight := None)
  {
  }

  lemma ShootIs(s: State, image: Image, taken: seq<Image>)
    requires s.flight == Some(Shooting(taken))
    ensures Step(s, Shoot(image, Whole)) ==
            if image in s.images && s.images[image] != image.bytes then s.(flight := None)
            else s.(images := s.images[image := image.bytes], flight := Some(Shooting(taken + [image])))
  {
    if image in s.images && s.images[image] == image.bytes {
      assert s.images[image := image.bytes] == s.images;
    }
  }

  /** `capture` up to the first screenshot: a replay, a refusal, or an attempt begun. */
  method Prepare(store: CaptureStore, request: Request, now: int, planned: bool)
    returns (replay: Option<Result<Package, Failure>>)
    requires store.flight.None?
    modifies store
    ensures store.Contents() == BeginCapture(old(store.Contents()), request, now, planned)
    ensures replay.None? <==> store.flight == Some(Shooting([]))
    ensures replay.Some? ==> store.flight.None?
    ensures store.returned == old(store.returned) + if replay.Some? && replay.value.Ok? then [replay.value.value] else []
    ensures replay.None? ==> store.pinned.None? && store.file.None?
    ensures request.Consistent() && !request.Timely(now) ==> replay == Some(Err(Expired))
  {
    hide Intact;
    hide BytesOf;
    if !request.Consistent() { return Some(Err(PlanMismatch)); }
    if !request.Timely(now) { return Some(Err(Expired)); }
    var seen := store.BeginRequest(request);
    if seen.Err? { return Some(Err(seen.error)); }
    if seen.value.Some? {
      var result := store.LoadReplay(seen.value.value);
      if result.Ok? {
        store.returned := store.returned + [result.value];
      }
      return Some(result);
    }
    if !planned { return Some(Err(PlanMismatch)); }
    if store.file.Some? { return Some(Err(Unbound)); }
    store.flight := Some(Shooting([]));
    return None;
  }

  /** The ledger row first, then the result file. */
  method RecordAndPublish(store: CaptureStore, details: string, images: seq<Image>) returns (package: Package)
    requires store.flight == Some(Shooting(images)) && store.pinned.None? && store.file.None?
    modifies store
    ensures store.Contents() == Step(Step(old(store.Contents()), Record(details)), Publish(Whole))
    ensures store.flight.None? && store.returned == old(store.returned) + [package]
  {
    hide BytesOf;
    var document := Document(details, images);
    var _ := store.RecordResult(document);
    store.file := Some(Exact(document));
    store.flight := None;
    package := Package(document, BytesOf(images));
    store.returned := store.returned + [package];
  }

  /** `capture`, uninterrupted: its writes are moves of the store's run, and it returns a package
      exactly when the run hands one back, the last it did. */
  method Capture(store: CaptureStore, request: Request, now: int, planned: bool, plan: seq<string>,
                 backend: seq<Option<string>>, details: Option<string>)
    returns (result: Result<Package, Failure>, ghost moves: seq<Move>)
    requires |backend| == |plan| && store.flight.None?
    modifies store
    ensures store.Contents() == Run(old(store.Contents()), moves) && store.flight.None?
    ensures store.returned == old(store.returned) + if result.Ok? then [result.value] else []
  {
    ghost var before := store.Contents();
    NoMoves(before);
    hide Run;
    assert [] + [Begin(request, now, planned)] == [Begin(request, now, planned)];
    RunSnoc(before, [], Begin(request, now, planned));
    assert Step(before, Begin(request, now, planned)) == BeginCapture(before, request, now, planned);
    hide Step;
    moves := [Begin(request, now, planned)];
    var replay := Prepare(store, request, now, planned);
    hide BeginCapture;
    if replay.Some? { return replay.value, moves; }
    var images;
    ghost var shots;
    images, shots := ShootAll(store, plan, backend);
    RunOn(before, moves, shots);
    moves := moves + shots;
    if images.None? { return Err(BackendFailed), moves; }
    if details.None? {
      RunSnoc(before, moves, Abandon);
      AbandonIs(store.Contents());
      store.flight := None;
      return Err(BackendFailed), moves + [Abandon];
    }
    RunSnoc(before, moves, Record(details.value));
    RunSnoc(before, moves + [Record(details.value)], Publish(Whole));
    moves := moves + [Record(details.value)] + [Publish(Whole)];
    var package := RecordAndPublish(store, details.value, images.value);
    result := Ok(package);
  }

  lemma {:induction false} RunOn(s: State, moves: seq<Move>, more: seq<Move>)
    ensures Run(s, moves + more) == Run(Run(s, moves), more)
  {
    hide Step;
    if more == [] {
      assert moves + more == moves;
    } else {
      var all, front := moves + more, more[..|more| - 1];
      assert all[..|all| - 1] == moves + front && all[|all| - 1] == more[|more| - 1];
      RunOn(s, moves, front);
    }
  }
}
