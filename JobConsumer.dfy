/**
 * The worker's queue consumer (worker/src/queues/encription-queue-1.ts): one polling
 * round over the messages a receive returned, and `handleS3Event` over the records
 * of an S3 event notification.
 *
 * The queue service, `JSON.parse` and the outcome of each delete are parameters:
 * `parse` yields `None` where `JSON.parse` throws a SyntaxError, and
 * `deleteSucceeds` says whether the delete of a message went through.
 */
module JobConsumer {
  import opened Wrappers
  import opened JsValue
  import opened UriComponent

  // ----- configuration -----

  /** The variables read when the module loads; `None` when unset. */
  datatype WorkerEnv = WorkerEnv(region: Option<string>, accessKeyId: Option<string>,
                                 secretAccessKey: Option<string>, queueUrl: Option<string>)

  datatype QueueConfig = QueueConfig(region: string, accessKeyId: string, secretAccessKey: string, queueUrl: string)

  datatype ConfigError = MissingCredentials

  predicate Present(v: Option<string>) {
    v.Some? && v.value != ""
  }

  /** The load-time check: every variable set and non-empty, or the module throws. */
  function LoadQueueConfig(env: WorkerEnv): (r: Result<QueueConfig, ConfigError>)
    ensures r.Ok? <==> Present(env.region) && Present(env.accessKeyId) && Present(env.secretAccessKey) && Present(env.queueUrl)
    ensures r.Ok? ==> Some(r.value.queueUrl) == env.queueUrl && Some(r.value.region) == env.region
  {
    if Present(env.region) && Present(env.accessKeyId) && Present(env.secretAccessKey) && Present(env.queueUrl)
    then Ok(QueueConfig(env.region.value, env.accessKeyId.value, env.secretAccessKey.value, env.queueUrl.value))
    else Err(MissingCredentials)
  }

  datatype ReceiveRequest = ReceiveRequest(queueUrl: string, maxNumberOfMessages: nat, waitTimeSeconds: nat)

  /** The receive parameters of every round: one message, long polling for 10 seconds. */
  function ReceiveRequestFor(cfg: QueueConfig): ReceiveRequest {
    ReceiveRequest(cfg.queueUrl, 1, 10)
  }

  // ----- records of an S3 event -----

  /** What `handleS3Event` logs for one record: the bucket name and the decoded key. */
  datatype Decoded = Decoded(bucket: Value, key: string)

  /**
   * Why a record throws: a property read through null/undefined or a non-string key,
   * a bad escape, or a bucket name that cannot be turned into text for the log line.
   */
  datatype RecordError = Malformed | BadEscape | UnprintableName

  /**
   * One iteration of the record loop: `record.s3.bucket.name`, then
   * `decodeURIComponent(record.s3.object.key.replace(/\+/g, " "))`, then the log
   * line, whose `${bucket}` converts the name to a string.
   */
  function DecodeRecord(record: Value): (r: Result<Decoded, RecordError>)
    ensures r.Ok? ==> RawKey(record).Some? && DecodeKey(RawKey(record).value) == Ok(r.value.key)
    ensures r.Ok? ==> !ToStringThrows(r.value.bucket)
    ensures r == Err(BadEscape) ==> RawKey(record).Some? && DecodeKey(RawKey(record).value).Err?
  {
    var s3 := Get(record, "s3");
    if s3.Err? then Err(Malformed)
    else
      var bucket := Get(s3.value, "bucket");
      if bucket.Err? then Err(Malformed)
      else
        var name := Get(bucket.value, "name");
        if name.Err? then Err(Malformed)
        else
          var obj := Get(s3.value, "object");
          if obj.Err? then Err(Malformed)
          else
            var key := Get(obj.value, "key");
            if key.Err? || !key.value.Str? then Err(Malformed)
            else
              match DecodeKey(key.value.s)
              case Err(_) => Err(BadEscape)
              case Ok(k) => if ToStringThrows(name.value) then Err(UnprintableName) else Ok(Decoded(name.value, k))
  }

  /** `record.s3.object.key` when it is a string. */
  function RawKey(record: Value): Option<string> {
    if record.Object? && "s3" in record.fields then
      var s3 := record.fields["s3"];
      if s3.Object? && "object" in s3.fields then
        var obj := s3.fields["object"];
        if obj.Object? && "key" in obj.fields && obj.fields["key"].Str? then Some(obj.fields["key"].s) else None
      else None
    else None
  }

  /**
   * `record.s3.bucket.name`, read field by field, when `record.s3.bucket` is neither
   * null nor undefined (a name missing from the bucket reads as `undefined`).
   */
  function BucketName(record: Value): Option<Value> {
    if record.Object? && "s3" in record.fields then
      var s3 := record.fields["s3"];
      if s3.Object? && "bucket" in s3.fields && s3.fields["bucket"] != Null && s3.fields["bucket"] != Undefined then
        var bucket := s3.fields["bucket"];
        Some(if bucket.Object? && "name" in bucket.fields then bucket.fields["name"] else Undefined)
      else None
    else None
  }

  /**
   * A record is logged exactly when its bucket can be read, its key is a string whose
   * decoding succeeds and its bucket name prints; it logs that name and that key.
   */
  lemma DecodeRecordCharacterization(record: Value)
    ensures DecodeRecord(record).Ok? <==>
      && RawKey(record).Some? && DecodeKey(RawKey(record).value).Ok?
      && BucketName(record).Some? && !ToStringThrows(BucketName(record).value)
    ensures DecodeRecord(record).Ok? ==>
      DecodeRecord(record).value == Decoded(BucketName(record).value, DecodeKey(RawKey(record).value).value)
  {
    if record.Object? && "s3" in record.fields {
      var s3 := record.fields["s3"];
      if s3.Object? && "object" in s3.fields && s3.fields["object"].Object? {
        assert Get(s3, "object") == Ok(s3.fields["object"]);
      }
    }
  }

  /** The record S3 sends for an object: bucket name and URL-encoded key. */
  function S3Record(bucket: string, encodedKey: string): Value {
    Object(map[
      "s3" := Object(map[
        "bucket" := Object(map["name" := Str(bucket)]),
        "object" := Object(map["key" := Str(encodedKey)])
      ])
    ])
  }

  /** A record as S3 writes it decodes back to the object's own key. */
  lemma DecodeS3Record(bucket: string, key: string)
    ensures DecodeRecord(S3Record(bucket, FormUrlEncode(key))) == Ok(Decoded(Str(bucket), key))
  {
    DecodeKeyRoundTrip(key);
  }

  /**
   * A bucket name that is an object with its own `toString` makes the log line throw
   * for every key that decodes, for instance
   * `{"s3":{"bucket":{"name":{"toString":0}},"object":{"key":"a"}}}`.
   * A key that does not decode throws earlier, as `BadEscape`.
   */
  lemma UnprintableNameThrows(fields: map<string, Value>, encodedKey: string)
    requires "toString" in fields
    requires DecodeKey(encodedKey).Ok?
    ensures DecodeRecord(RecordNamed(Object(fields), encodedKey)) == Err(UnprintableName)
  {
  }

  /** A record whose bucket name is an arbitrary value. */
  function RecordNamed(name: Value, encodedKey: string): Value {
    Object(map[
      "s3" := Object(map[
        "bucket" := Object(map["name" := name]),
        "object" := Object(map["key" := Str(encodedKey)])
      ])
    ])
  }

  lemma DecodeRecordExample()
    ensures DecodeRecord(S3Record("anand-video-stream-temp", "a+b%2Bc")) == Ok(Decoded(Str("anand-video-stream-temp"), "a b+c"))
  {
    DecodeKeyExample();
  }

  /** The records loop up to its end or its first throw: what was logged, and whether it threw. */
  function RecordsSpec(records: seq<Value>): (seq<Decoded>, bool)
    decreases |records|
  {
    if records == [] then ([], false)
    else
      var (logged, threw) := RecordsSpec(records[..|records| - 1]);
      if threw then (logged, true)
      else match DecodeRecord(records[|records| - 1])
        case Err(_) => (logged, true)
        case Ok(d) => (logged + [d], false)
  }

  /**
   * Records are handled in array order, one logged entry each; the loop throws
   * exactly when some record does, and then it has logged the records before the
   * first bad one.
   */
  lemma RecordsInOrder(records: seq<Value>)
    ensures var (logged, threw) := RecordsSpec(records);
      && (!threw <==> forall i :: 0 <= i < |records| ==> DecodeRecord(records[i]).Ok?)
      && (!threw ==> |logged| == |records|)
      && |logged| <= |records|
      && (forall i :: 0 <= i < |logged| ==> DecodeRecord(records[i]) == Ok(logged[i]))
      && (threw ==> DecodeRecord(records[|logged|]).Err?)
  {
    RecordsLogged(records);
    RecordsThrow(records);
  }

  /** What was logged is the decoded prefix, all of it when nothing threw. */
  lemma {:induction false} RecordsLogged(records: seq<Value>)
    ensures var (logged, threw) := RecordsSpec(records);
      && (!threw ==> |logged| == |records|)
      && |logged| <= |records|
      && (forall i :: 0 <= i < |logged| ==> DecodeRecord(records[i]) == Ok(logged[i]))
    decreases |records|
  {
    if records != [] {
      var n := |records| - 1;
      var init := records[..n];
      RecordsLogged(init);
      var (before, threwBefore) := RecordsSpec(init);
      var (logged, threw) := RecordsSpec(records);
      if !threwBefore && DecodeRecord(records[n]).Ok? {
        assert logged == before + [DecodeRecord(records[n]).value];
        forall i | 0 <= i < |logged| ensures DecodeRecord(records[i]) == Ok(logged[i]) {
          if i < n {
            assert logged[i] == before[i];
            assert init[i] == records[i];
          }
        }
      } else {
        assert logged == before && threw;
        forall i | 0 <= i < |logged| ensures DecodeRecord(records[i]) == Ok(logged[i]) {
          assert init[i] == records[i];
        }
      }
    }
  }

  /** The loop throws exactly when some record does, and then at the first record logged nothing for. */
  lemma RecordsThrow(records: seq<Value>)
    ensures var (logged, threw) := RecordsSpec(records);
      && (!threw <==> forall i :: 0 <= i < |records| ==> DecodeRecord(records[i]).Ok?)
      && (threw ==> |logged| < |records| && DecodeRecord(records[|logged|]).Err?)
  {
    RecordsThrowIff(records);
    RecordsThrowAt(records);
  }

  lemma {:induction false} RecordsThrowIff(records: seq<Value>)
    ensures !RecordsSpec(records).1 <==> forall i :: 0 <= i < |records| ==> DecodeRecord(records[i]).Ok?
    decreases |records|
  {
    if records != [] {
      var n := |records| - 1;
      var init := records[..n];
      RecordsThrowIff(init);
      if !RecordsSpec(records).1 {
        forall i | 0 <= i < |records| ensures DecodeRecord(records[i]).Ok? {
          if i < n {
            assert init[i] == records[i];
          }
        }
      } else if RecordsSpec(init).1 {
        var i :| 0 <= i < n && !DecodeRecord(init[i]).Ok?;
        assert records[i] == init[i];
      }
    }
  }

  lemma {:induction false} RecordsThrowAt(records: seq<Value>)
    ensures var (logged, threw) := RecordsSpec(records);
      threw ==> |logged| < |records| && DecodeRecord(records[|logged|]).Err?
    decreases |records|
  {
    if records != [] {
      var n := |records| - 1;
      var init := records[..n];
      RecordsThrowAt(init);
      var (before, threwBefore) := RecordsSpec(init);
      if threwBefore {
        var k := |before|;
        assert records[k] == init[k];
      } else {
        RecordsLogged(init);
      }
    }
  }

  datatype EventOutcome = NotS3Event | Handled | Threw

  /** `handleS3Event(job)`: its outcome and what it logged. */
  function HandleS3EventSpec(job: Value): (EventOutcome, seq<Decoded>) {
    match Get(job, "Records")
    case Err(_) => (Threw, [])
    case Ok(rs) =>
      if !Truthy(rs) || !rs.Array? then (NotS3Event, [])
      else
        var (logged, threw) := RecordsSpec(rs.items);
        (if threw then Threw else Handled, logged)
  }

  /** The record loop of `handleS3Event`. */
  method HandleS3Event(job: Value) returns (outcome: EventOutcome, logged: seq<Decoded>)
    ensures (outcome, logged) == HandleS3EventSpec(job)
  {
    var rs := Get(job, "Records");
    if rs.Err? {
      return Threw, [];
    }
    if !Truthy(rs.value) || !rs.value.Array? {
      return NotS3Event, [];
    }
    var records := rs.value.items;
    logged := [];
    var i := 0;
    while i < |records|
      invariant 0 <= i <= |records|
      invariant RecordsSpec(records[..i]) == (logged, false)
    {
      assert records[..i + 1][..i] == records[..i];
      var d := DecodeRecord(records[i]);
      if d.Err? {
        RecordsThrowSticky(records, i + 1);
        return Threw, logged;
      }
      logged := logged + [d.value];
      i := i + 1;
    }
    assert records[..i] == records;
    outcome := Handled;
  }

  /** Once the loop has thrown on a prefix it has thrown on the whole array. */
  lemma {:induction false} RecordsThrowSticky(records: seq<Value>, k: nat)
    requires k <= |records|
    requires RecordsSpec(records[..k]).1
    ensures RecordsSpec(records) == RecordsSpec(records[..k])
    decreases |records| - k
  {
    if k < |records| {
      assert records[..k + 1][..k] == records[..k];
      RecordsThrowSticky(records, k + 1);
    } else {
      assert records[..k] == records;
    }
  }

  /** A job without a `Records` array logs nothing and does not throw (unless it is null). */
  lemma NoRecordsNoWork(job: Value)
    requires job != Null && job != Undefined
    requires !(job.Object? && "Records" in job.fields && job.fields["Records"].Array?)
    ensures HandleS3EventSpec(job) == (NotS3Event, [])
  {
  }

  // ----- one polling round -----

  datatype Message = Message(body: Option<string>, receiptHandle: Option<string>)

  /** What the receive call produced: an error, or a response whose `Messages` may be absent. */
  datatype ReceiveResponse = ReceiveFailed | Received(messages: Option<seq<Message>>)

  /** What one iteration of the message loop does with its message. */
  datatype Disposition =
    | NoBody
    | BadJson
    | Acknowledge(logged: seq<Decoded>)   // handled (or not an S3 event): delete it
    | Crash(logged: seq<Decoded>)         // handleS3Event threw: the round ends here

  function MessageDisposition(m: Message, parse: string -> Option<Value>): Disposition {
    if m.body == None || m.body.value == "" then NoBody
    else match parse(m.body.value)
      case None => BadJson
      case Some(job) =>
        var (outcome, logged) := HandleS3EventSpec(job);
        if outcome == Threw then Crash(logged) else Acknowledge(logged)
  }

  /**
   * The state after the loop has run over `messages`: the indices whose delete was
   * attempted, in order; the receipt handles deleted; what was logged; whether the
   * round was cut short by a throw.
   */
  datatype Round = Round(attempted: seq<nat>, acked: set<string>, logged: seq<Decoded>, aborted: bool)

  predicate Deletes(m: Message, deleteSucceeds: Message -> bool) {
    m.receiptHandle.Some? && deleteSucceeds(m)
  }

  function BatchSpec(messages: seq<Message>, parse: string -> Option<Value>, deleteSucceeds: Message -> bool): Round
    decreases |messages|
  {
    if messages == [] then Round([], {}, [], false)
    else
      var n := |messages| - 1;
      Advance(BatchSpec(messages[..n], parse, deleteSucceeds), messages[n], n, parse, deleteSucceeds)
  }

  /** One iteration of the message loop, on message `m` at index `n`. */
  function Advance(r: Round, m: Message, n: nat, parse: string -> Option<Value>, deleteSucceeds: Message -> bool): Round {
    if r.aborted then r
    else match MessageDisposition(m, parse)
      case NoBody => r
      case BadJson => r
      case Crash(logged) => Round(r.attempted, r.acked, r.logged + logged, true)
      case Acknowledge(logged) =>
        Round(r.attempted + [n],
              if Deletes(m, deleteSucceeds) then r.acked + {m.receiptHandle.value} else r.acked,
              r.logged + logged, false)
  }

  lemma BatchStep(messages: seq<Message>, parse: string -> Option<Value>, deleteSucceeds: Message -> bool, i: nat)
    requires i < |messages|
    ensures BatchSpec(messages[..i + 1], parse, deleteSucceeds)
         == Advance(BatchSpec(messages[..i], parse, deleteSucceeds), messages[i], i, parse, deleteSucceeds)
  {
    assert messages[..i + 1][..i] == messages[..i];
  }

  function RoundSpec(response: ReceiveResponse, parse: string -> Option<Value>, deleteSucceeds: Message -> bool): Round {
    match response
    case ReceiveFailed => Round([], {}, [], true)
    case Received(None) => Round([], {}, [], false)
    case Received(Some(messages)) => BatchSpec(messages, parse, deleteSucceeds)
  }

  /** `pollQueue` up to the re-poll timer: one round over the received messages. */
  method PollRound(response: ReceiveResponse, parse: string -> Option<Value>, deleteSucceeds: Message -> bool)
    returns (attempted: seq<nat>, acked: set<string>, logged: seq<Decoded>, aborted: bool)
    ensures Round(attempted, acked, logged, aborted) == RoundSpec(response, parse, deleteSucceeds)
  {
    attempted, acked, logged, aborted := [], {}, [], false;
    if response.ReceiveFailed? {
      aborted := true;
      return;
    }
    var messages := if response.messages.Some? then response.messages.value else [];
    var i := 0;
    while i < |messages|
      invariant 0 <= i <= |messages|
      invariant BatchSpec(messages[..i], parse, deleteSucceeds) == Round(attempted, acked, logged, false)
    {
      var m := messages[i];
      BatchStep(messages, parse, deleteSucceeds, i);
      if m.body == None || m.body.value == "" {
        i := i + 1;
        continue;
      }
      var job := parse(m.body.value);
      if job.None? {
        i := i + 1;
        continue;
      }
      var outcome, records := HandleS3Event(job.value);
      logged := logged + records;
      if outcome == Threw {
        aborted := true;
        BatchAbortSticky(messages, parse, deleteSucceeds, i + 1);
        return;
      }
      attempted := attempted + [i];
      if m.receiptHandle.Some? && deleteSucceeds(m) {
        acked := acked + {m.receiptHandle.value};
      }
      i := i + 1;
    }
    assert messages[..i] == messages;
  }

  lemma {:induction false} BatchAbortSticky(messages: seq<Message>, parse: string -> Option<Value>,
                                            deleteSucceeds: Message -> bool, k: nat)
    requires k <= |messages|
    requires BatchSpec(messages[..k], parse, deleteSucceeds).aborted
    ensures BatchSpec(messages, parse, deleteSucceeds) == BatchSpec(messages[..k], parse, deleteSucceeds)
    decreases |messages| - k
  {
    if k < |messages| {
      assert messages[..k + 1][..k] == messages[..k];
      BatchAbortSticky(messages, parse, deleteSucceeds, k + 1);
    } else {
      assert messages[..k] == messages;
    }
  }

  // ----- properties of a round -----

  /** Some message before index i crashed its handler. */
  predicate CrashBefore(messages: seq<Message>, parse: string -> Option<Value>, i: nat) {
    exists j :: 0 <= j < i && j < |messages| && MessageDisposition(messages[j], parse).Crash?
  }

  /**
   * The delete of message i is attempted exactly when no earlier message crashed the
   * round and its own body is present, parses, and does not crash the handler; a
   * failed delete changes nothing about the messages after it. The round is cut short
   * exactly when some message crashes the handler.
   */
  lemma {:induction false} AttemptedCharacterization(messages: seq<Message>, parse: string -> Option<Value>,
                                                     deleteSucceeds: Message -> bool)
    ensures var r := BatchSpec(messages, parse, deleteSucceeds);
      && (forall i :: i in r.attempted <==>
           0 <= i < |messages| && !CrashBefore(messages, parse, i) && MessageDisposition(messages[i], parse).Acknowledge?)
      && (r.aborted <==> CrashBefore(messages, parse, |messages|))
    decreases |messages|
  {
    if messages != [] {
      var n := |messages| - 1;
      var init := messages[..n];
      AttemptedCharacterization(init, parse, deleteSucceeds);
      AttemptedBelow(init, parse, deleteSucceeds);
      var r0 := BatchSpec(init, parse, deleteSucceeds);
      var r := BatchSpec(messages, parse, deleteSucceeds);
      assert r == Advance(r0, messages[n], n, parse, deleteSucceeds);
      CrashBeforeLast(messages, parse);
      CrashBeforePrefix(messages, parse, n);
      forall i: nat
        ensures i in r.attempted <==>
          i < |messages| && !CrashBefore(messages, parse, i) && MessageDisposition(messages[i], parse).Acknowledge?
      {
        if i < n {
          CrashBeforePrefix(messages, parse, i);
          assert init[i] == messages[i];
        }
      }
    }
  }

  /** Whether a message before index i crashed does not depend on the messages from n on. */
  lemma CrashBeforePrefix(messages: seq<Message>, parse: string -> Option<Value>, i: nat)
    requires messages != [] && i < |messages|
    ensures CrashBefore(messages[..|messages| - 1], parse, i) <==> CrashBefore(messages, parse, i)
  {
    var init := messages[..|messages| - 1];
    if CrashBefore(init, parse, i) {
      var j :| 0 <= j < i && j < |init| && MessageDisposition(init[j], parse).Crash?;
      assert messages[j] == init[j];
    }
    if CrashBefore(messages, parse, i) {
      var j :| 0 <= j < i && j < |messages| && MessageDisposition(messages[j], parse).Crash?;
      assert init[j] == messages[j];
    }
  }

  lemma CrashBeforeLast(messages: seq<Message>, parse: string -> Option<Value>)
    requires messages != []
    ensures CrashBefore(messages, parse, |messages|) <==>
      CrashBefore(messages, parse, |messages| - 1) || MessageDisposition(messages[|messages| - 1], parse).Crash?
  {
    var n := |messages| - 1;
    if MessageDisposition(messages[n], parse).Crash? {
      assert CrashBefore(messages, parse, n + 1);
    }
    if CrashBefore(messages, parse, n + 1) && !CrashBefore(messages, parse, n) {
      var j :| 0 <= j < n + 1 && j < |messages| && MessageDisposition(messages[j], parse).Crash?;
      assert j == n;
    }
  }

  lemma {:induction false} AttemptedBelow(messages: seq<Message>, parse: string -> Option<Value>, deleteSucceeds: Message -> bool)
    ensures forall i :: i in BatchSpec(messages, parse, deleteSucceeds).attempted ==> i < |messages|
    decreases |messages|
  {
    if messages != [] {
      AttemptedBelow(messages[..|messages| - 1], parse, deleteSucceeds);
    }
  }

  /**
   * A message is acknowledged (its handle deleted) only when its delete was
   * attempted and went through; conversely every attempted delete that went
   * through acknowledges its handle.
   */
  lemma {:induction false} AckedCharacterization(messages: seq<Message>, parse: string -> Option<Value>,
                                                 deleteSucceeds: Message -> bool)
    ensures var r := BatchSpec(messages, parse, deleteSucceeds);
      && (forall i :: i in r.attempted && 0 <= i < |messages| && Deletes(messages[i], deleteSucceeds) ==>
            messages[i].receiptHandle.value in r.acked)
      && (forall h :: h in r.acked ==> exists i :: i in r.attempted && 0 <= i < |messages| && Deletes(messages[i], deleteSucceeds)
                                                    && messages[i].receiptHandle == Some(h))
    decreases |messages|
  {
    AttemptedBelow(messages, parse, deleteSucceeds);
    if messages != [] {
      var n := |messages| - 1;
      var init := messages[..n];
      AckedCharacterization(init, parse, deleteSucceeds);
      AttemptedBelow(init, parse, deleteSucceeds);
      assert forall i :: 0 <= i < n ==> init[i] == messages[i];
    }
  }

  /** A message without a body, or whose body is not JSON, is skipped and never deleted. */
  lemma SkippedMessages(m: Message, parse: string -> Option<Value>, deleteSucceeds: Message -> bool)
    requires m.body == None || m.body.value == "" || parse(m.body.value).None?
    ensures BatchSpec([m], parse, deleteSucceeds) == Round([], {}, [], false)
  {
    assert [m][..0] == [];
  }

  /** Any JSON body that does not crash the handler is deleted, S3 event or not. */
  lemma JsonWithoutRecordsIsAcknowledged(m: Message, parse: string -> Option<Value>, deleteSucceeds: Message -> bool,
                                         fields: map<string, Value>)
    requires m.body.Some? && m.body.value != "" && parse(m.body.value) == Some(Object(fields))
    requires "Records" !in fields
    requires m.receiptHandle.Some? && deleteSucceeds(m)
    ensures BatchSpec([m], parse, deleteSucceeds) == Round([0], {m.receiptHandle.value}, [], false)
  {
    assert [m][..0] == [];
  }

  /** A body of `null` makes `job.Records` throw: the round ends and the message stays. */
  lemma NullJobAbortsRound(m: Message, rest: seq<Message>, parse: string -> Option<Value>, deleteSucceeds: Message -> bool)
    requires m.body.Some? && m.body.value != "" && parse(m.body.value) == Some(Null)
    ensures BatchSpec([m] + rest, parse, deleteSucceeds) == Round([], {}, [], true)
  {
    var ms := [m] + rest;
    assert ms[..1] == [m];
    assert [m][..0] == [];
    BatchAbortSticky(ms, parse, deleteSucceeds, 1);
  }

  /**
   * An S3 event whose bucket name has its own `toString` throws while it is logged:
   * the round ends there and the message is not deleted.
   */
  lemma UnprintableNameAbortsRound(m: Message, rest: seq<Message>, parse: string -> Option<Value>,
                                   deleteSucceeds: Message -> bool, encodedKey: string)
    requires DecodeKey(encodedKey).Ok?
    requires m.body.Some? && m.body.value != ""
    requires parse(m.body.value) == Some(Object(map["Records" := Array([RecordNamed(Object(map["toString" := Number(0.0)]), encodedKey)])]))
    ensures BatchSpec([m] + rest, parse, deleteSucceeds) == Round([], {}, [], true)
  {
    var records := [RecordNamed(Object(map["toString" := Number(0.0)]), encodedKey)];
    UnprintableNameThrows(map["toString" := Number(0.0)], encodedKey);
    assert records[..0] == [];
    assert RecordsSpec(records) == ([], true);
    var ms := [m] + rest;
    assert ms[..1] == [m];
    assert [m][..0] == [];
    BatchAbortSticky(ms, parse, deleteSucceeds, 1);
  }

  /** Every message is acknowledged at most once: no more handles than attempts, no more attempts than messages. */
  lemma {:induction false} RoundSizes(messages: seq<Message>, parse: string -> Option<Value>, deleteSucceeds: Message -> bool)
    ensures var r := BatchSpec(messages, parse, deleteSucceeds);
      |r.acked| <= |r.attempted| <= |messages|
    decreases |messages|
  {
    if messages != [] {
      var n := |messages| - 1;
      RoundSizes(messages[..n], parse, deleteSucceeds);
      var r := BatchSpec(messages[..n], parse, deleteSucceeds);
      if Deletes(messages[n], deleteSucceeds) {
        assert |r.acked + {messages[n].receiptHandle.value}| <= |r.acked| + 1;
      }
    }
  }

  /** With at most one message per receive, a round acknowledges at most one handle. */
  lemma AtMostOneAckPerRound(cfg: QueueConfig, response: ReceiveResponse, parse: string -> Option<Value>,
                             deleteSucceeds: Message -> bool)
    requires response.Received? && response.messages.Some? ==>
      |response.messages.value| <= ReceiveRequestFor(cfg).maxNumberOfMessages
    ensures |RoundSpec(response, parse, deleteSucceeds).acked| <= 1
    ensures |RoundSpec(response, parse, deleteSucceeds).attempted| <= 1
  {
    if response.Received? && response.messages.Some? {
      RoundSizes(response.messages.value, parse, deleteSucceeds);
    }
  }
}
