/** One run of `lambda_handler`: token exchange, report request, polling with the
    default budget, document download, then the raw store and, for a GZIP
    document, the parsed store.

    Every upstream call is an opaque answer or failure (`Call`); the
    decompress-and-parse step is an abstract function from the downloaded bytes
    to the JSON text that would be uploaded, or `None` when it raises. Uploads
    are emitted as `Put`s in the order the handler performs them. */
module Handler {
  import opened Optional
  import opened Storage
  import opened StorageKeys
  import Poller

  const Gzip: string := "GZIP"

  /** The answer of a single-shot upstream call, or the HTTP error it raised. */
  datatype Call<+T> = Answered(value: T) | CallFailed(code: int)

  /** What `get_report_file` returns: the bytes and the compression indicator. */
  datatype Download = Download(content: seq<byte>, compression: Option<string>)

  datatype Upstream = Upstream(
    token: Call<string>,
    submission: Call<string>,
    statuses: nat -> Poller.Response,
    document: Call<Download>,
    decode: seq<byte> -> Option<string>)

  /** The exception a failed run propagates. */
  datatype Failure =
    | TokenFailed(code: int)
    | SubmissionFailed(code: int)
    | PollFailed(outcome: Poller.Outcome)
    | FetchFailed(code: int)
    | DecodeFailed
    | NoSuchAttribute(name: string)

  /** `{statusCode: 200, body: {report_id, document_id}}`, or the propagated failure. */
  datatype Reply = Ok(reportId: string, documentId: string) | Err(failure: Failure)

  datatype Invocation = Invocation(reply: Reply, puts: seq<Put>, polls: seq<Poller.Event>)

  function DefaultPoll(up: Upstream): Poller.Run {
    Poller.Poll(up.statuses, Poller.DefaultMaxRetries, Poller.DefaultWaitSeconds)
  }

  /** Every step before the uploads succeeded. */
  ghost predicate ReachesUpload(up: Upstream) {
    && up.token.Answered?
    && up.submission.Answered?
    && DefaultPoll(up).outcome.Ready?
    && up.document.Answered?
  }

  ghost predicate IsGzip(up: Upstream)
    requires up.document.Answered?
  {
    up.document.value.compression == Some(Gzip)
  }

  /** The handler as intended: the same sequence without the `time.wait(3600)`
      call of reports.py:134. */
  function Handle(up: Upstream): (inv: Invocation)
    ensures inv.puts != [] <==> ReachesUpload(up)
    ensures inv.puts != [] ==>
      inv.puts[0] == Put(RawKey(up.submission.value), RawReport(up.document.value.content))
    ensures |inv.puts| <= 2
    ensures |inv.puts| == 2 <==>
      ReachesUpload(up) && IsGzip(up) && up.decode(up.document.value.content).Some?
    ensures |inv.puts| == 2 ==>
      inv.puts[1] == Put(ParsedKey(up.submission.value),
                         ParsedReport(up.decode(up.document.value.content).value))
    ensures inv.reply.Ok? <==>
      ReachesUpload(up) && (IsGzip(up) ==> up.decode(up.document.value.content).Some?)
    ensures inv.reply.Ok? ==>
      && up.submission == Answered(inv.reply.reportId)
      && DefaultPoll(up).outcome == Poller.Ready(inv.reply.documentId)
    ensures up.token.CallFailed? ==> inv == Invocation(Err(TokenFailed(up.token.code)), [], [])
    ensures up.token.Answered? && up.submission.CallFailed? ==>
      inv == Invocation(Err(SubmissionFailed(up.submission.code)), [], [])
    ensures up.token.Answered? && up.submission.Answered? ==> inv.polls == DefaultPoll(up).trace
    ensures up.token.Answered? && up.submission.Answered? && !DefaultPoll(up).outcome.Ready? ==>
      inv.reply == Err(PollFailed(DefaultPoll(up).outcome)) && inv.puts == []
    ensures up.token.Answered? && up.submission.Answered? && DefaultPoll(up).outcome.Ready?
            && up.document.CallFailed? ==>
      inv.reply == Err(FetchFailed(up.document.code)) && inv.puts == []
    ensures ReachesUpload(up) && IsGzip(up) && up.decode(up.document.value.content).None? ==>
      inv.reply == Err(DecodeFailed) && |inv.puts| == 1
  {
    match up.token
    case CallFailed(code) => Invocation(Err(TokenFailed(code)), [], [])
    case Answered(_) =>
      match up.submission
      case CallFailed(code) => Invocation(Err(SubmissionFailed(code)), [], [])
      case Answered(reportId) =>
        var poll := DefaultPoll(up);
        if !poll.outcome.Ready? then
          Invocation(Err(PollFailed(poll.outcome)), [], poll.trace)
        else
          match up.document
          case CallFailed(code) => Invocation(Err(FetchFailed(code)), [], poll.trace)
          case Answered(d) =>
            var raw := Put(RawKey(reportId), RawReport(d.content));
            if d.compression == Some(Gzip) then
              match up.decode(d.content)
              case None => Invocation(Err(DecodeFailed), [raw], poll.trace)
              case Some(text) =>
                Invocation(Ok(reportId, poll.outcome.documentId),
                           [raw, Put(ParsedKey(reportId), ParsedReport(text))], poll.trace)
            else
              Invocation(Ok(reportId, poll.outcome.documentId), [raw], poll.trace)
  }

  /** The handler as written: `time.wait` does not exist in Python's `time`
      module, so every run that gets past the report request raises
      AttributeError there, before any status query or upload. */
  function HandleAsWritten(up: Upstream): (inv: Invocation)
    ensures inv.reply.Err? && inv.puts == [] && inv.polls == []
    ensures up.token.Answered? && up.submission.Answered? ==>
      inv.reply.failure == NoSuchAttribute("wait")
  {
    match up.token
    case CallFailed(code) => Invocation(Err(TokenFailed(code)), [], [])
    case Answered(_) =>
      match up.submission
      case CallFailed(code) => Invocation(Err(SubmissionFailed(code)), [], [])
      case Answered(_) => Invocation(Err(NoSuchAttribute("wait")), [], [])
  }

  /** A successful run leaves the raw report under its key; it writes the parsed
      report under its own key when the document was GZIP-compressed, and
      touches nothing else otherwise. */
  lemma SuccessfulRunStores(up: Upstream, b: Bucket)
    requires Handle(up).reply.Ok?
    ensures var after := Apply(b, Handle(up).puts);
      var id := up.submission.value;
      && RawKey(id) in after
      && after[RawKey(id)] == RawReport(up.document.value.content)
      && (IsGzip(up) ==>
            ParsedKey(id) in after
            && after[ParsedKey(id)] == ParsedReport(up.decode(up.document.value.content).value))
      && (!IsGzip(up) ==> after == b[RawKey(id) := RawReport(up.document.value.content)])
  {
    var id := up.submission.value;
    var puts := Handle(up).puts;
    KeysSeparateReports(id, id);
    if |puts| == 2 {
      var afterRaw := Apply(b, [puts[0]]);
      assert puts == [puts[0]] + [puts[1]];
      assert Apply(b, puts) == Apply(afterRaw, [puts[1]]);
      assert RawKey(id) !in KeysOf([puts[1]]);
    } else {
      assert Apply(b, puts) == Apply(b[RawKey(id) := RawReport(up.document.value.content)], []);
    }
  }

  /** Every run that would reach the uploads under the intended handler fails
      under the handler as written, with nothing uploaded. */
  lemma WaitCallBreaksEveryRun(up: Upstream)
    requires ReachesUpload(up)
    ensures HandleAsWritten(up) == Invocation(Err(NoSuchAttribute("wait")), [], [])
    ensures Handle(up).puts != [] && Handle(up).polls != []
  {
  }

  /** A concrete run that exhibits the defect: every upstream call succeeds and the
      first status answer is DONE, yet the handler as written fails and stores
      nothing, while the intended handler stores the raw report and replies. */
  lemma WaitCallExample()
    ensures var up := Upstream(Answered("token"), Answered("R1"),
                               i => Poller.StatusReport(Some(Poller.Done), Some("D1")),
                               Answered(Download([31, 139], None)),
                               bytes => None);
      && HandleAsWritten(up) == Invocation(Err(NoSuchAttribute("wait")), [], [])
      && Handle(up) == Invocation(Ok("R1", "D1"), [Put(RawKey("R1"), RawReport([31, 139]))],
                                  [Poller.Query(1)])
  {
  }
}
