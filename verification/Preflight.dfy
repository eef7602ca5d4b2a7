/** The bridge's protocol check (`bridge_preflight` and `check_preflight` in scripts/apple_brief_demo.py). */
module Preflight {
  import opened Text
  import opened Json
  import opened JsonText
  import opened JsonParse
  import opened CanonicalJson
  import opened KeyOrder
  import Seqs

  const NEWLINE: Byte := 10
  const MAX_OUTPUT := 4096
  const MAX_DEADLINE := 10000
  const MAX_RECORD := 16384

  datatype Stream = Stdout | Stderr

  /** What passed between the host and the child, in order; an empty read is the end of that stream. */
  datatype Step = Wrote(bytes: seq<Byte>) | Heard(stream: Stream, data: seq<Byte>) | ClosedStdin

  /**
   * One readiness event: stdin takes `room` more bytes, a stream has data, or the attempt ends by the deadline or by
   * a broken pipe.
   */
  datatype Event = Writable(room: nat) | Readable(stream: Stream, data: seq<Byte>) | Abort

  /** The child process, as the record of what was done with it. */
  class Child {
    var log: seq<Step>

    constructor ()
      ensures log == []
    {
      log := [];
    }

    method Write(bytes: seq<Byte>, room: nat) returns (n: nat)
      modifies this
      ensures n == (if room < |bytes| then room else |bytes|)
      ensures log == old(log) + [Wrote(bytes[..n])]
    {
      n := if room < |bytes| then room else |bytes|;
      log := log + [Wrote(bytes[..n])];
    }

    method Read(stream: Stream, data: seq<Byte>)
      modifies this
      ensures log == old(log) + [Heard(stream, data)]
    {
      log := log + [Heard(stream, data)];
    }

    method CloseStdin()
      modifies this
      ensures log == old(log) + [ClosedStdin]
    {
      log := log + [ClosedStdin];
    }
  }

  // ----- what a log shows -----

  function Sent(log: seq<Step>): seq<Byte> {
    if log == [] then []
    else
      Sent(log[..|log| - 1]) + (match log[|log| - 1] case Wrote(bytes) => bytes case _ => [])
  }

  function Output(log: seq<Step>, stream: Stream): seq<Byte> {
    if log == [] then []
    else
      Output(log[..|log| - 1], stream)
      + (match log[|log| - 1] case Heard(s, data) => if s == stream then data else [] case _ => [])
  }

  function FirstLine(bytes: seq<Byte>): seq<Byte> {
    if bytes == [] || bytes[0] == NEWLINE then [] else [bytes[0]] + FirstLine(bytes[1..])
  }

  /** `{"id": id, "ok": false, "error": {"code": "invalidRequest"}}` */
  function ExpectedReply(id: string): (v: Json)
    ensures Admitted(v)
  {
    var code := Member("code", Str("invalidRequest"), NoMembers);
    assert StrictMembers(code) && FloatFreeMembers(code) && Distinct(code);
    var error := Member("error", Obj(code), NoMembers);
    assert StrictMembers(error) && FloatFreeMembers(error) && Distinct(error);
    var ok := Member("ok", Bool(false), error);
    assert StrictMembers(ok) && FloatFreeMembers(ok) && Distinct(ok);
    var ms := Member("id", Str(id), ok);
    assert "id"[0] != "ok"[0] && "id"[0] != "error"[0];
    assert StrictMembers(ms) && FloatFreeMembers(ms) && Distinct(ms);
    Obj(ms)
  }

  /** An object whose one member is the code. */
  predicate IsInvalidRequest(error: Json) {
    error.Obj? && Size(error.members) == 1 && Lookup(error.members, "code") == Some(Str("invalidRequest"))
  }

  /** A rejection of the request with this id: its three members, and no other. */
  predicate IsRejection(reply: Json, id: string) {
    && reply.Obj?
    && Size(reply.members) == 3
    && Lookup(reply.members, "id") == Some(Str(id))
    && Lookup(reply.members, "ok") == Some(Bool(false))
    && Lookup(reply.members, "error").Some?
    && IsInvalidRequest(Lookup(reply.members, "error").value)
  }

  lemma SameSymmetric(v: Json, w: Json)
    requires Strict(v) && Strict(w)
    ensures Same(v, w) <==> Same(w, v)
  {
    SameIffSorted(CanonicalKeys, v, w);
    SameIffSorted(CanonicalKeys, w, v);
  }

  lemma SameScalars(v: Json, w: Json)
    requires v.Str? || v.Bool?
    ensures Same(v, w) <==> v == w
  {
  }

  lemma WithinFirst(key: string, value: Json, rest: Members, ms: Members)
    ensures Within(Member(key, value, rest), ms) <==>
              Lookup(ms, key).Some? && Same(value, Lookup(ms, key).value) && Within(rest, ms)
    ensures Within(NoMembers, ms)
  {
  }

  lemma ExpectedError(error: Json)
    ensures Same(Obj(Member("code", Str("invalidRequest"), NoMembers)), error) <==> IsInvalidRequest(error)
  {
    var code := Member("code", Str("invalidRequest"), NoMembers);
    assert Size(code) == 1;
    if error.Obj? {
      WithinFirst("code", Str("invalidRequest"), NoMembers, error.members);
      if Lookup(error.members, "code").Some? {
        SameScalars(Str("invalidRequest"), Lookup(error.members, "code").value);
      }
    }
  }

  lemma ExpectedOutcome(id: string, ms: Members)
    ensures var error := Member("error", Obj(Member("code", Str("invalidRequest"), NoMembers)), NoMembers);
            Within(Member("id", Str(id), Member("ok", Bool(false), error)), ms) <==>
              && Lookup(ms, "id") == Some(Str(id))
              && Lookup(ms, "ok") == Some(Bool(false))
              && Lookup(ms, "error").Some?
              && IsInvalidRequest(Lookup(ms, "error").value)
  {
    var reason := Obj(Member("code", Str("invalidRequest"), NoMembers));
    var error := Member("error", reason, NoMembers);
    var ok := Member("ok", Bool(false), error);
    WithinFirst("error", reason, NoMembers, ms);
    WithinFirst("ok", Bool(false), error, ms);
    WithinFirst("id", Str(id), ok, ms);
    if Lookup(ms, "error").Some? {
      ExpectedError(Lookup(ms, "error").value);
    }
    if Lookup(ms, "ok").Some? {
      SameScalars(Bool(false), Lookup(ms, "ok").value);
    }
    if Lookup(ms, "id").Some? {
      SameScalars(Str(id), Lookup(ms, "id").value);
    }
  }

  /** The replies that equal the expected one are exactly the rejections of that request. */
  lemma ExpectedReplyIs(reply: Json, id: string)
    requires Strict(reply)
    ensures Same(reply, ExpectedReply(id)) <==> IsRejection(reply, id)
  {
    SameSymmetric(reply, ExpectedReply(id));
    var error := Member("error", Obj(Member("code", Str("invalidRequest"), NoMembers)), NoMembers);
    var ok := Member("ok", Bool(false), error);
    assert Size(error) == 1;
    assert Size(ok) == 2;
    assert Size(Member("id", Str(id), ok)) == 3;
    if reply.Obj? {
      ExpectedOutcome(id, reply.members);
    }
  }

  /** What `json.loads` takes bytes for: it detects their encoding. */
  type Reader = seq<Byte> -> Option<string>

  function ParseBytes(reader: Reader, bytes: seq<Byte>): Option<Json> {
    match reader(bytes) case None => None case Some(text) => Loads(Unique, text)
  }

  predicate Answers(reader: Reader, id: string, line: seq<Byte>, reply: Json) {
    ParseBytes(reader, line) == Some(reply) && Same(reply, ExpectedReply(id))
  }

  predicate ClosedOnce(log: seq<Step>, at: nat) {
    forall k :: 0 <= k < |log| ==> (log[k].ClosedStdin? <==> k == at)
  }

  /**
   * At `at` the child's first line was complete and answered this request, all of the request had been written before,
   * and stdin was closed right after and at no other time.
   */
  ghost predicate Handshake(reader: Reader, wire: seq<Byte>, id: string, log: seq<Step>, at: nat, reply: Json) {
    && at + 1 < |log|
    && log[at].Heard?
    && Sent(log[..at]) == wire
    && NEWLINE !in Output(log[..at], Stdout)
    && NEWLINE in Output(log[..at + 1], Stdout)
    && Answers(reader, id, FirstLine(Output(log[..at + 1], Stdout)), reply)
    && ClosedOnce(log, at + 1)
  }

  predicate NeverClosed(log: seq<Step>) {
    forall k :: 0 <= k < |log| ==> !log[k].ClosedStdin?
  }

  lemma LogAppend(log: seq<Step>, step: Step)
    ensures Sent(log + [step]) == Sent(log) + (match step case Wrote(bytes) => bytes case _ => [])
    ensures forall s :: Output(log + [step], s) == Output(log, s)
                        + (match step case Heard(t, data) => if t == s then data else [] case _ => [])
    ensures NeverClosed(log) && !step.ClosedStdin? ==> NeverClosed(log + [step])
  {
    assert (log + [step])[..|log|] == log;
  }

  lemma HandshakeAppend(reader: Reader, wire: seq<Byte>, id: string, log: seq<Step>, at: nat, reply: Json, step: Step)
    requires Handshake(reader, wire, id, log, at, reply) && !step.ClosedStdin?
    ensures Handshake(reader, wire, id, log + [step], at, reply)
  {
    assert (log + [step])[..at] == log[..at];
    assert (log + [step])[..at + 1] == log[..at + 1];
  }

  lemma ReplyParts(log: seq<Step>, step: Step)
    ensures var after := log + [step] + [ClosedStdin];
            && |after| == |log| + 2
            && after[..|log|] == log && after[..|log| + 1] == log + [step] && after[|log|] == step
  {
  }

  lemma ClosedNow(log: seq<Step>, step: Step)
    requires NeverClosed(log) && !step.ClosedStdin?
    ensures ClosedOnce(log + [step] + [ClosedStdin], |log| + 1)
  {
  }

  lemma HandshakeAt(reader: Reader, wire: seq<Byte>, id: string, log: seq<Step>, step: Step, reply: Json)
    requires step.Heard? && NeverClosed(log) && Sent(log) == wire
    requires NEWLINE !in Output(log, Stdout) && NEWLINE in Output(log + [step], Stdout)
    requires Answers(reader, id, FirstLine(Output(log + [step], Stdout)), reply)
    ensures Handshake(reader, wire, id, log + [step] + [ClosedStdin], |log|, reply)
  {
    ReplyParts(log, step);
    ClosedNow(log, step);
  }

  // ----- the loop -----

  /** What the loop keeps: which streams are registered, how much was written, what was read, the reply if any. */
  datatype State = State(writing: bool, reading: bool, draining: bool, written: nat,
                         stdout: seq<Byte>, stderr: seq<Byte>, reply: Option<Json>)

  /** The state after stdin took up to `room` bytes. */
  function AfterWrite(wire: seq<Byte>, s: State, room: nat): State
    requires s.written <= |wire|
  {
    var n := if room < |wire| - s.written then room else |wire| - s.written;
    s.(written := s.written + n, writing := s.written + n < |wire|)
  }

  /** The state after data from one of the child's streams, or nothing where the attempt ends. */
  function AfterData(reader: Reader, wire: seq<Byte>, id: string, s: State, stream: Stream, data: seq<Byte>)
    : Option<State>
  {
    var stdout, stderr := s.stdout + data, s.stderr + data;
    match stream
    case Stderr => if |stderr| > MAX_OUTPUT then None else Some(s.(stderr := stderr))
    case Stdout =>
      if |stdout| > MAX_OUTPUT then None
      else if s.reply.Some? || NEWLINE !in stdout then Some(s.(stdout := stdout))
      else if s.written != |wire| then None
      else
        match ParseBytes(reader, FirstLine(stdout))
        case None => None
        case Some(reply) =>
          if Same(reply, ExpectedReply(id)) then Some(s.(stdout := stdout, reply := Some(reply))) else None
  }

  /** The state after one event; there are no events of streams that are no longer registered. */
  function Advance(reader: Reader, wire: seq<Byte>, id: string, s: State, event: Event): Option<State> {
    match event
    case Abort => None
    case Writable(room) =>
      if !s.writing || |wire| < s.written then Some(s) else Some(AfterWrite(wire, s, room))
    case Readable(stream, data) =>
      if (stream.Stdout? && !s.reading) || (stream.Stderr? && !s.draining) then Some(s)
      else if data != [] then AfterData(reader, wire, id, s, stream, data)
      else Some(if stream.Stdout? then s.(reading := false) else s.(draining := false))
  }

  /** The state when no stream is registered any more. */
  function Exchange(reader: Reader, wire: seq<Byte>, id: string, s: State, events: seq<Event>): Option<State>
    decreases |events|
  {
    if !s.writing && !s.reading && !s.draining then Some(s)
    else if events == [] then None
    else
      match Advance(reader, wire, id, s, events[0])
      case None => None
      case Some(next) => Exchange(reader, wire, id, next, events[1..])
  }

  const START := State(true, true, true, 0, [], [], None)

  ghost predicate Good(reader: Reader, wire: seq<Byte>, id: string, log: seq<Step>, at: nat, s: State) {
    && s.written <= |wire|
    && (s.writing <==> s.written < |wire|)
    && Sent(log) == wire[..s.written]
    && s.stdout == Output(log, Stdout) && |s.stdout| <= MAX_OUTPUT
    && s.stderr == Output(log, Stderr) && |s.stderr| <= MAX_OUTPUT
    && (s.reply.None? ==> NeverClosed(log) && NEWLINE !in s.stdout)
    && (s.reply.Some? ==> Handshake(reader, wire, id, log, at, s.reply.value))
  }

  lemma GoodAfterWrite(reader: Reader, wire: seq<Byte>, id: string, log: seq<Step>, at: nat, s: State, n: nat)
    requires Good(reader, wire, id, log, at, s) && s.writing && n <= |wire| - s.written
    ensures Good(reader, wire, id, log + [Wrote(wire[s.written..][..n])], at,
                 s.(written := s.written + n, writing := s.written + n < |wire|))
  {
    var step := Wrote(wire[s.written..][..n]);
    LogAppend(log, step);
    assert wire[..s.written] + wire[s.written..][..n] == wire[..s.written + n];
    if s.reply.Some? {
      HandshakeAppend(reader, wire, id, log, at, s.reply.value, step);
    }
  }

  lemma GoodAfterRead(reader: Reader, wire: seq<Byte>, id: string, log: seq<Step>, at: nat, s: State,
                      stream: Stream, data: seq<Byte>)
    requires Good(reader, wire, id, log, at, s)
    requires stream.Stderr? || s.reply.Some? || NEWLINE !in s.stdout + data
    requires |s.stdout| + |data| <= MAX_OUTPUT || stream.Stderr?
    requires |s.stderr| + |data| <= MAX_OUTPUT || stream.Stdout?
    ensures Good(reader, wire, id, log + [Heard(stream, data)], at,
                 if stream.Stdout? then s.(stdout := s.stdout + data) else s.(stderr := s.stderr + data))
  {
    LogAppend(log, Heard(stream, data));
    assert s.stdout + [] == s.stdout && s.stderr + [] == s.stderr;
    if s.reply.Some? {
      HandshakeAppend(reader, wire, id, log, at, s.reply.value, Heard(stream, data));
    }
  }

  lemma GoodAfterReply(reader: Reader, wire: seq<Byte>, id: string, log: seq<Step>, at: nat, s: State,
                       data: seq<Byte>, reply: Json)
    requires Good(reader, wire, id, log, at, s) && s.reply.None? && s.written == |wire|
    requires |s.stdout + data| <= MAX_OUTPUT && NEWLINE in s.stdout + data
    requires Answers(reader, id, FirstLine(s.stdout + data), reply)
    ensures Good(reader, wire, id, log + [Heard(Stdout, data)] + [ClosedStdin], |log|,
                 s.(stdout := s.stdout + data, reply := Some(reply)))
  {
    LogAppend(log, Heard(Stdout, data));
    LogAppend(log + [Heard(Stdout, data)], ClosedStdin);
    assert wire[..s.written] == wire;
    HandshakeAt(reader, wire, id, log, Heard(Stdout, data), reply);
  }

  /** Data from one of the child's streams. */
  method OnReadable(child: Child, reader: Reader, wire: seq<Byte>, id: string, s: State, ghost at: nat,
                    stream: Stream, data: seq<Byte>)
    returns (next: Option<State>, ghost later: nat)
    requires Good(reader, wire, id, child.log, at, s) && data != []
    modifies child
    ensures next == AfterData(reader, wire, id, s, stream, data)
    ensures next.Some? ==> Good(reader, wire, id, child.log, later, next.value)
  {
    later := at;
    child.Read(stream, data);
    if stream.Stderr? {
      if |s.stderr + data| > MAX_OUTPUT {
        return None, later;
      }
      GoodAfterRead(reader, wire, id, old(child.log), at, s, stream, data);
      return Some(s.(stderr := s.stderr + data)), later;
    }
    if |s.stdout + data| > MAX_OUTPUT {
      return None, later;
    }
    if s.reply.Some? || NEWLINE !in s.stdout + data {
      GoodAfterRead(reader, wire, id, old(child.log), at, s, stream, data);
      return Some(s.(stdout := s.stdout + data)), later;
    }
    if s.written != |wire| {
      return None, later;
    }
    var reply := ParseBytes(reader, FirstLine(s.stdout + data));
    if reply.None? || !Same(reply.value, ExpectedReply(id)) {
      return None, later;
    }
    child.CloseStdin();
    GoodAfterReply(reader, wire, id, old(child.log), at, s, data, reply.value);
    later := |old(child.log)|;
    next := Some(s.(stdout := s.stdout + data, reply := reply));
  }

  /** Stdin takes some of what is left of the request. */
  method OnWritable(child: Child, reader: Reader, wire: seq<Byte>, id: string, s: State, ghost at: nat, room: nat)
    returns (next: State)
    requires Good(reader, wire, id, child.log, at, s) && s.writing
    modifies child
    ensures next == AfterWrite(wire, s, room)
    ensures Good(reader, wire, id, child.log, at, next)
  {
    ghost var before := child.log;
    var n := child.Write(wire[s.written..], room);
    GoodAfterWrite(reader, wire, id, before, at, s, n);
    next := s.(written := s.written + n, writing := s.written + n < |wire|);
  }

  /** One event of a registered stream; there are none for the others. */
  method OnEvent(child: Child, reader: Reader, wire: seq<Byte>, id: string, s: State, ghost at: nat, event: Event)
    returns (next: Option<State>, ghost later: nat)
    requires Good(reader, wire, id, child.log, at, s)
    modifies child
    ensures next == Advance(reader, wire, id, s, event)
    ensures next.Some? ==> Good(reader, wire, id, child.log, later, next.value)
  {
    next, later := Some(s), at;
    match event
    case Abort =>
      next := None;
    case Writable(room) =>
      if s.writing {
        var after := OnWritable(child, reader, wire, id, s, at, room);
        next := Some(after);
      }
    case Readable(stream, data) =>
      if stream.Stdout? && !s.reading {
      } else if stream.Stderr? && !s.draining {
      } else if data == [] {
        next := Some(if stream.Stdout? then s.(reading := false) else s.(draining := false));
      } else {
        next, later := OnReadable(child, reader, wire, id, s, at, stream, data);
      }
  }

  // ----- the record -----

  datatype Bridge = Bridge(path: string, sha256: string)

  datatype Record = Record(bridge: Bridge, id: string, reply: Json, stdout: string, stderr: string, deadlineMs: int)

  /** A request that is rejected before any model is reached: its prompt is empty. */
  function RequestJson(id: string): (v: Json)
    ensures Admitted(v)
  {
    var prompt := Member("prompt", Str(""), NoMembers);
    var ms := Member("id", Str(id), prompt);
    assert "id"[0] != "prompt"[0];
    assert Lookup(prompt, "id").None? && FloatFreeMembers(prompt) && StrictMembers(prompt) && Distinct(prompt);
    assert FloatFreeMembers(ms) && StrictMembers(ms) && Distinct(ms);
    Obj(ms)
  }

  function RequestText(id: string): string {
    Canonical(RequestJson(id)).value
  }

  lemma RequestKeys()
    ensures KeyLess("id", "prompt")
    ensures NeedsNoEscape("id") && NeedsNoEscape("prompt") && NeedsNoEscape("")
  {
    assert !IsDigit("id"[0]) && !IsDigit("prompt"[0]);
    assert !IsIndex("id") && !IsIndex("prompt");
    assert Utf16("id")[0] == 105 && Utf16("prompt")[0] == 112;
  }

  lemma RequestSorted(id: string)
    ensures Sorted(CanonicalKeys, RequestJson(id)) == RequestJson(id)
  {
    RequestKeys();
    var prompt := Member("prompt", Str(""), NoMembers);
    assert SortedMembers(CanonicalKeys, NoMembers) == NoMembers;
    assert SortedMembers(CanonicalKeys, prompt) == Insert(CanonicalKeys, "prompt", Str(""), NoMembers) == prompt;
    assert Before(CanonicalKeys, "id", "prompt");
    assert Insert(CanonicalKeys, "id", Str(id), prompt) == Member("id", Str(id), prompt);
    assert Sorted(CanonicalKeys, Str(id)) == Str(id);
  }

  lemma PrintedEntry(key: string, value: string)
    requires NeedsNoEscape(key) && NeedsNoEscape(value)
    ensures Quote(Unicode, key) + ([':'] + Print(Unicode, Str(value))) == "\"" + key + "\":\"" + value + "\""
  {
    EscapedPlain(Unicode, key);
    EscapedPlain(Unicode, value);
  }

  lemma PrintedPair(k: string, v: string, l: string, w: string)
    requires NeedsNoEscape(k) && NeedsNoEscape(v) && NeedsNoEscape(l) && NeedsNoEscape(w)
    ensures Print(Unicode, Obj(Member(k, Str(v), Member(l, Str(w), NoMembers))))
         == "{" + ("\"" + k + "\":\"" + v + "\"") + "," + ("\"" + l + "\":\"" + w + "\"") + "}"
  {
    var first, second := "\"" + k + "\":\"" + v + "\"", "\"" + l + "\":\"" + w + "\"";
    var last := Member(l, Str(w), NoMembers);
    PrintedEntry(k, v);
    PrintedEntry(l, w);
    Seqs.Empty(second);
    assert PrintMembers(Unicode, last) == second;
    assert PrintMembers(Unicode, Member(k, Str(v), last)) == first + ([','] + second);
    Seqs.Assoc(first, ",", second);
    Seqs.Assoc("{", first, ",");
    Seqs.Assoc("{" + first, ",", second);
    Seqs.Assoc("{", first, "," + second);
  }

  /** The text of the request, to the letter. */
  lemma RequestTextIs(id: string)
    requires NeedsNoEscape(id)
    ensures RequestText(id)
         == "{" + ("\"" + "id" + "\":\"" + id + "\"") + "," + ("\"" + "prompt" + "\":\"" + "" + "\"") + "}"
  {
    RequestKeys();
    RequestSorted(id);
    PrintedPair("id", id, "prompt", "");
  }

  /** The bytes of the request. */
  function Wire(id: string): (wire: seq<Byte>)
    ensures wire != []
  {
    EncodeAppend(RequestText(id), "\n");
    Encode(RequestText(id) + "\n")
  }

  lemma {:induction false} EncodeNewline(text: string)
    ensures NEWLINE in Encode(text) <==> '\n' in text
  {
    if text != "" {
      EncodeNewline(text[1..]);
      assert text == [text[0]] + text[1..];
    }
  }

  /** One newline, at the end. */
  predicate OneLine(text: string) {
    text != "" && text[|text| - 1] == '\n' && '\n' !in text[..|text| - 1]
  }

  lemma LineBytes(text: string)
    requires Visible(text)
    ensures Encode(text + "\n") == Encode(text) + [NEWLINE] && NEWLINE !in Encode(text)
    ensures OneLine(text + "\n")
  {
    EncodeAppend(text, "\n");
    EncodeNewline(text);
    assert Encode("\n") == [NEWLINE] + Encode("");
    assert (text + "\n")[..|text|] == text;
  }

  /** The request is one line of bytes that reads as the request. */
  lemma WireIsOneLine(id: string)
    ensures Wire(id) == Encode(RequestText(id)) + [NEWLINE] && NEWLINE !in Encode(RequestText(id))
    ensures Loads(Unique, RequestText(id)).Some?
    ensures Same(Loads(Unique, RequestText(id)).value, RequestJson(id))
  {
    ParseCanonical(RequestJson(id));
    SortedKeeps(CanonicalKeys, RequestJson(id));
    PrintVisible(Unicode, Sorted(CanonicalKeys, RequestJson(id)));
    LineBytes(RequestText(id));
  }

  function BridgeJson(bridge: Bridge): Json {
    Obj(Member("path", Str(bridge.path), Member("sha256", Str(bridge.sha256), NoMembers)))
  }

  function RecordJson(r: Record): Json {
    Obj(Member("contract", Str("algal.private-brief-bridge-preflight.v1"),
        Member("bridge", BridgeJson(r.bridge),
        Member("request", RequestJson(r.id),
        Member("response", r.reply,
        Member("stdout", Str(r.stdout),
        Member("stderr", Str(r.stderr),
        Member("deadlineMs", Int(r.deadlineMs),
        Member("stdinHeldOpenUntilResponse", Bool(true),
        Member("exitCode", Int(0),
        Member("inferenceAttempted", Bool(false), NoMembers)))))))))))
  }

  predicate BridgeAdmitted(bridge: Bridge) {
    1 <= ByteLength(bridge.path) <= 4096 && Hex(bridge.sha256, 64)
  }

  const ID_PREFIX := "algal-preflight-"

  predicate PreflightId(id: string) {
    ID_PREFIX <= id && Hex(id[|ID_PREFIX|..], 32)
  }

  predicate DeadlineAdmitted(deadlineMs: int) {
    1 <= deadlineMs <= MAX_DEADLINE
  }

  /** The retained output is one line, and it reads as the reply. */
  predicate Retained(r: Record) {
    && OneLine(r.stdout)
    && Loads(Unique, r.stdout).Some?
    && Same(Loads(Unique, r.stdout).value, r.reply)
  }

  predicate RecordFits(r: Record) {
    Canonical(RecordJson(r)).Ok? && ByteLength(Canonical(RecordJson(r)).value) <= MAX_RECORD
  }

  /** `check_preflight`, on the fields that are not constants of the record. */
  predicate CheckPreflight(r: Record) {
    && BridgeAdmitted(r.bridge)
    && PreflightId(r.id)
    && Same(r.reply, ExpectedReply(r.id))
    && ByteLength(r.stdout) <= MAX_OUTPUT && ByteLength(r.stderr) <= MAX_OUTPUT
    && Retained(r)
    && DeadlineAdmitted(r.deadlineMs)
    && RecordFits(r)
  }

  /**
   * The record of a finished exchange, if there was a reply, the output is text, the child exited cleanly and all fits.
   */
  function Verdict(bridge: Bridge, id: string, deadlineMs: int, end: Option<State>,
                   exitCode: Option<int>, sameAfter: bool): Option<Record>
  {
    if end.None? || end.value.reply.None? || exitCode != Some(0) || !sameAfter then None
    else
      match (Decode(end.value.stdout), Decode(end.value.stderr))
      case (Some(stdout), Some(stderr)) =>
        var record := Record(bridge, id, end.value.reply.value, stdout, stderr, deadlineMs);
        if CheckPreflight(record) then Some(record) else None
      case _ => None
  }

  lemma VerdictHolds(bridge: Bridge, id: string, deadlineMs: int, s: State, exitCode: Option<int>,
                     sameAfter: bool)
    ensures var record := Verdict(bridge, id, deadlineMs, Some(s), exitCode, sameAfter);
            record.Some? ==>
              && s.reply == Some(record.value.reply)
              && Decode(s.stdout) == Some(record.value.stdout)
              && Decode(s.stderr) == Some(record.value.stderr)
              && CheckPreflight(record.value)
              && record.value.bridge == bridge && record.value.id == id && record.value.deadlineMs == deadlineMs
              && exitCode == Some(0) && sameAfter
  {
  }

  lemma AllWritten(wire: seq<Byte>, n: nat)
    requires n == |wire|
    ensures wire[..n] == wire
  {
  }

  /** What became of the loop, or nothing where the child is not even started. */
  function Outcome(reader: Reader, bridge: Bridge, id: string, deadlineMs: int, events: seq<Event>,
                   sameBefore: bool, exitCode: Option<int>, sameAfter: bool): Option<Record>
  {
    if !DeadlineAdmitted(deadlineMs) || !sameBefore then None
    else Verdict(bridge, id, deadlineMs, Exchange(reader, Wire(id), id, START, events), exitCode, sameAfter)
  }

  /** All that passed between the host and the child, when a record is produced. */
  ghost predicate Witnessed(reader: Reader, id: string, log: seq<Step>, at: nat, r: Record) {
    && Handshake(reader, Wire(id), id, log, at, r.reply)
    && Sent(log) == Wire(id)
    && |Output(log, Stdout)| <= MAX_OUTPUT && |Output(log, Stderr)| <= MAX_OUTPUT
    && Decode(Output(log, Stdout)) == Some(r.stdout)
    && Decode(Output(log, Stderr)) == Some(r.stderr)
  }

  lemma FinishedWell(reader: Reader, id: string, log: seq<Step>, at: nat, s: State, r: Record)
    requires Good(reader, Wire(id), id, log, at, s) && !s.writing && s.reply == Some(r.reply)
    requires Decode(s.stdout) == Some(r.stdout) && Decode(s.stderr) == Some(r.stderr)
    ensures Witnessed(reader, id, log, at, r)
  {
    AllWritten(Wire(id), s.written);
  }

  function Pairs(ms: Members): seq<(string, Json)> {
    match ms
    case NoMembers => []
    case Member(key, value, rest) => [(key, value)] + Pairs(rest)
  }

  lemma PairsFirst(key: string, value: Json, rest: Members)
    ensures Pairs(Member(key, value, rest)) == [(key, value)] + Pairs(rest)
  {
  }

  /** The retained record has these ten members and no other. */
  lemma RecordMembers(r: Record)
    ensures RecordJson(r).Obj?
    ensures Pairs(RecordJson(r).members) == [
              ("contract", Str("algal.private-brief-bridge-preflight.v1")),
              ("bridge", BridgeJson(r.bridge)),
              ("request", RequestJson(r.id)),
              ("response", r.reply),
              ("stdout", Str(r.stdout)),
              ("stderr", Str(r.stderr)),
              ("deadlineMs", Int(r.deadlineMs)),
              ("stdinHeldOpenUntilResponse", Bool(true)),
              ("exitCode", Int(0)),
              ("inferenceAttempted", Bool(false))
            ]
    ensures BridgeJson(r.bridge).Obj?
    ensures Pairs(BridgeJson(r.bridge).members) == [("path", Str(r.bridge.path)), ("sha256", Str(r.bridge.sha256))]
  {
    PairsFirst("path", Str(r.bridge.path), Member("sha256", Str(r.bridge.sha256), NoMembers));
    var m9 := Member("inferenceAttempted", Bool(false), NoMembers);
    assert Pairs(m9) == [("inferenceAttempted", Bool(false))];
    var m8 := Member("exitCode", Int(0), m9);
    PairsFirst("exitCode", Int(0), m9);
    var m7 := Member("stdinHeldOpenUntilResponse", Bool(true), m8);
    PairsFirst("stdinHeldOpenUntilResponse", Bool(true), m8);
    var m6 := Member("deadlineMs", Int(r.deadlineMs), m7);
    PairsFirst("deadlineMs", Int(r.deadlineMs), m7);
    var m5 := Member("stderr", Str(r.stderr), m6);
    PairsFirst("stderr", Str(r.stderr), m6);
    var m4 := Member("stdout", Str(r.stdout), m5);
    PairsFirst("stdout", Str(r.stdout), m5);
    var m3 := Member("response", r.reply, m4);
    PairsFirst("response", r.reply, m4);
    var m2 := Member("request", RequestJson(r.id), m3);
    PairsFirst("request", RequestJson(r.id), m3);
    var m1 := Member("bridge", BridgeJson(r.bridge), m2);
    PairsFirst("bridge", BridgeJson(r.bridge), m2);
    var m0 := Member("contract", Str("algal.private-brief-bridge-preflight.v1"), m1);
    PairsFirst("contract", Str("algal.private-brief-bridge-preflight.v1"), m1);
    assert RecordJson(r) == Obj(m0);
  }

  lemma ParsedStrict(reader: Reader, bytes: seq<Byte>)
    ensures ParseBytes(reader, bytes).Some? ==> Strict(ParseBytes(reader, bytes).value)
  {
    if reader(bytes).Some? {
      LoadsUnique(reader(bytes).value);
    }
  }

  lemma SameThrough(a: Json, b: Json, c: Json)
    requires Strict(a) && Strict(b) && Strict(c) && Same(b, c)
    ensures Same(a, b) <==> Same(a, c)
  {
    SameIffSorted(CanonicalKeys, a, b);
    SameIffSorted(CanonicalKeys, b, c);
    SameIffSorted(CanonicalKeys, a, c);
  }

  predicate LastNewline(text: string) {
    |text| > 0 && forall i :: 0 <= i < |text| ==> (text[i] == '\n' <==> i == |text| - 1)
  }

  /** What a record says: its request was rejected by its id, the output was that one line, and all bounds are kept. */
  predicate Vouched(r: Record) {
    && IsRejection(r.reply, r.id)
    && LastNewline(r.stdout)
    && Loads(Unique, r.stdout).Some? && IsRejection(Loads(Unique, r.stdout).value, r.id)
    && |Encode(r.stdout)| <= 4096 && |Encode(r.stderr)| <= 4096
    && 1 <= |Encode(r.bridge.path)| <= 4096 && Hex(r.bridge.sha256, 64)
    && |r.id| == 48 && r.id[..16] == "algal-preflight-" && Hex(r.id[16..], 32)
    && 1 <= r.deadlineMs <= 10000
    && Canonical(RecordJson(r)).Ok? && |Encode(Canonical(RecordJson(r)).value)| <= 16384
  }

  lemma OneLineIs(text: string)
    ensures OneLine(text) <==> LastNewline(text)
  {
  }

  lemma IdIs(id: string)
    ensures PreflightId(id) <==> |id| == 48 && id[..16] == "algal-preflight-" && Hex(id[16..], 32)
  {
    assert |ID_PREFIX| == 16;
  }

  lemma VouchedIs(r: Record)
    requires Strict(r.reply)
    ensures CheckPreflight(r) <==> Vouched(r)
  {
    ExpectedReplyIs(r.reply, r.id);
    IdIs(r.id);
    OneLineIs(r.stdout);
    if Loads(Unique, r.stdout).Some? && IsRejection(r.reply, r.id) {
      LoadsUnique(r.stdout);
      var heard := Loads(Unique, r.stdout).value;
      ExpectedReplyIs(heard, r.id);
      SameThrough(heard, r.reply, ExpectedReply(r.id));
    }
  }

  lemma RecordVouches(reader: Reader, id: string, log: seq<Step>, at: nat, r: Record)
    requires Handshake(reader, Wire(id), id, log, at, r.reply) && CheckPreflight(r)
    ensures Vouched(r)
  {
    ParsedStrict(reader, FirstLine(Output(log[..at + 1], Stdout)));
    VouchedIs(r);
  }

  /** The loop over the streams, until none is registered any more or the attempt ends. */
  method Converse(child: Child, reader: Reader, wire: seq<Byte>, id: string, events: seq<Event>)
    returns (end: Option<State>, ghost at: nat)
    requires child.log == [] && wire != []
    modifies child
    ensures end == Exchange(reader, wire, id, START, events)
    ensures end.Some? ==> Good(reader, wire, id, child.log, at, end.value) && !end.value.writing
  {
    at := 0;
    var s, i := START, 0;
    Seqs.Whole(events);
    while s.writing || s.reading || s.draining
      invariant i <= |events|
      invariant Good(reader, wire, id, child.log, at, s)
      invariant Exchange(reader, wire, id, s, events[i..]) == Exchange(reader, wire, id, START, events)
      decreases |events| - i
    {
      if i >= |events| {
        return None, at;
      }
      Seqs.Tail(events, i);
      var next;
      next, at := OnEvent(child, reader, wire, id, s, at, events[i]);
      if next.None? {
        return None, at;
      }
      s, i := next.value, i + 1;
    }
    end := Some(s);
  }

  /**
   * A record is produced only if, in whatever order streams became ready and however reads and writes were split, the
   * whole request had been written before the child's first line was there, stdin was open until that line had
   * answered with the request's id, and neither output stream passed its bound. Nothing is sent to a changed binary.
   */
  method BridgePreflight(child: Child, reader: Reader, bridge: Bridge, token: string, deadlineMs: int,
                         events: seq<Event>, sameBefore: bool, exitCode: Option<int>, sameAfter: bool)
    returns (record: Option<Record>, ghost at: nat)
    requires child.log == [] && Hex(token, 32)
    modifies child
    ensures record == Outcome(reader, bridge, ID_PREFIX + token, deadlineMs, events, sameBefore, exitCode, sameAfter)
    ensures !DeadlineAdmitted(deadlineMs) || !sameBefore ==> child.log == []
    ensures record.Some? ==>
              && Witnessed(reader, ID_PREFIX + token, child.log, at, record.value)
              && record.value.bridge == bridge && record.value.id == ID_PREFIX + token
              && record.value.deadlineMs == deadlineMs
              && exitCode == Some(0) && sameBefore && sameAfter
    ensures record.Some? ==> Vouched(record.value)
  {
    record, at := None, 0;
    if !DeadlineAdmitted(deadlineMs) || !sameBefore {
      return;
    }
    var id, end := ID_PREFIX + token, None;
    end, at := Converse(child, reader, Wire(id), id, events);
    record := Verdict(bridge, id, deadlineMs, end, exitCode, sameAfter);
    if record.Some? {
      VerdictHolds(bridge, id, deadlineMs, end.value, exitCode, sameAfter);
      FinishedWell(reader, id, child.log, at, end.value, record.value);
      RecordVouches(reader, id, child.log, at, record.value);
    }
  }

  // ----- a bridge that keeps to the protocol passes -----

  /** What the child says on a stream until it ends it. */
  function Spoken(events: seq<Event>, stream: Stream): seq<Byte> {
    if events == [] then []
    else if events[0].Readable? && events[0].stream == stream then
      if events[0].data == [] then [] else events[0].data + Spoken(events[1..], stream)
    else Spoken(events[1..], stream)
  }

  predicate Ends(events: seq<Event>, stream: Stream) {
    events != [] && (events[0] == Readable(stream, []) || Ends(events[1..], stream))
  }

  /** How many bytes of the request the child has had room for. */
  function Room(events: seq<Event>): nat {
    if events == [] then 0 else (if events[0].Writable? then events[0].room else 0) + Room(events[1..])
  }

  predicate NoAbort(events: seq<Event>) {
    events == [] || (!events[0].Abort? && NoAbort(events[1..]))
  }

  /** After `room` bytes and having `said` something: no line is said before there was room for the whole request. */
  predicate Waits(wire: seq<Byte>, room: nat, said: seq<Byte>, events: seq<Event>) {
    forall k :: 0 <= k <= |events| && NEWLINE in said + Spoken(events[..k], Stdout) ==>
      |wire| <= room + Room(events[..k])
  }

  /**
   * A child that takes the whole request, and not until then has said its one line on stdout, says something on
   * stderr, and ends both streams; reads, writes and ends come in any order and sizes.
   */
  predicate Cooperates(wire: seq<Byte>, events: seq<Event>, line: seq<Byte>, aside: seq<Byte>) {
    && NoAbort(events)
    && |wire| <= Room(events)
    && Ends(events, Stdout) && Spoken(events, Stdout) == line + [NEWLINE]
    && Ends(events, Stderr) && Spoken(events, Stderr) == aside
    && Waits(wire, 0, [], events)
  }

  lemma PrefixOf(events: seq<Event>, k: nat)
    requires events != [] && k < |events|
    ensures var front := events[..k + 1]; front != [] && front[0] == events[0] && front[1..] == events[1..][..k]
  {
  }

  lemma WaitsNow(wire: seq<Byte>, room: nat, said: seq<Byte>, events: seq<Event>)
    requires Waits(wire, room, said, events) && NEWLINE in said
    ensures |wire| <= room
  {
    assert events[..0] == [];
    Seqs.Empty(said);
    assert NEWLINE in said + Spoken(events[..0], Stdout);
  }

  lemma WaitsAfter(wire: seq<Byte>, room: nat, said: seq<Byte>, events: seq<Event>, more: nat, data: seq<Byte>)
    requires events != [] && Waits(wire, room, said, events)
    requires forall k :: 0 <= k < |events| ==>
               && Spoken(events[..k + 1], Stdout) == data + Spoken(events[1..][..k], Stdout)
               && Room(events[..k + 1]) == more + Room(events[1..][..k])
    ensures Waits(wire, room + more, said + data, events[1..])
  {
    forall k | 0 <= k <= |events[1..]| && NEWLINE in (said + data) + Spoken(events[1..][..k], Stdout)
      ensures |wire| <= (room + more) + Room(events[1..][..k])
    {
      Seqs.Assoc(said, data, Spoken(events[1..][..k], Stdout));
      assert NEWLINE in said + Spoken(events[..k + 1], Stdout);
    }
  }

  lemma WaitsNext(wire: seq<Byte>, room: nat, said: seq<Byte>, events: seq<Event>)
    requires events != [] && Waits(wire, room, said, events) && events[0] != Readable(Stdout, [])
    ensures var e := events[0];
            Waits(wire, room + (if e.Writable? then e.room else 0),
                  said + (if e.Readable? && e.stream.Stdout? then e.data else []), events[1..])
  {
    var e := events[0];
    var more, data := if e.Writable? then e.room else 0, if e.Readable? && e.stream.Stdout? then e.data else [];
    forall k | 0 <= k < |events|
      ensures Spoken(events[..k + 1], Stdout) == data + Spoken(events[1..][..k], Stdout)
      ensures Room(events[..k + 1]) == more + Room(events[1..][..k])
    {
      PrefixOf(events, k);
      Seqs.Empty(Spoken(events[1..][..k], Stdout));
    }
    WaitsAfter(wire, room, said, events, more, data);
  }

  /** What was heard on a stream so far, and what is still to come on it, are the whole. */
  predicate Hears(open: bool, heard: seq<Byte>, events: seq<Event>, stream: Stream, whole: seq<Byte>) {
    if open then Ends(events, stream) && heard + Spoken(events, stream) == whole else heard == whole
  }

  lemma HearsOther(open: bool, heard: seq<Byte>, events: seq<Event>, stream: Stream, whole: seq<Byte>)
    requires events != [] && Hears(open, heard, events, stream, whole)
    requires !open || !events[0].Readable? || events[0].stream != stream
    ensures Hears(open, heard, events[1..], stream, whole)
  {
  }

  lemma HearsEnd(heard: seq<Byte>, events: seq<Event>, stream: Stream, whole: seq<Byte>)
    requires events != [] && Hears(true, heard, events, stream, whole) && events[0] == Readable(stream, [])
    ensures Hears(false, heard, events[1..], stream, whole)
  {
    Seqs.Empty(heard);
  }

  lemma HearsMore(heard: seq<Byte>, events: seq<Event>, stream: Stream, whole: seq<Byte>)
    requires events != [] && Hears(true, heard, events, stream, whole)
    requires events[0].Readable? && events[0].stream == stream && events[0].data != []
    ensures Hears(true, heard + events[0].data, events[1..], stream, whole)
    ensures |heard + events[0].data| <= |whole|
    ensures heard + events[0].data + Spoken(events[1..], stream) == whole
  {
    Seqs.Assoc(heard, events[0].data, Spoken(events[1..], stream));
  }

  /** In the middle of a cooperative exchange, after `given` bytes of room. */
  predicate Underway(wire: seq<Byte>, s: State, given: nat, events: seq<Event>, line: seq<Byte>, aside: seq<Byte>) {
    && s.written == (if given < |wire| then given else |wire|)
    && (s.writing <==> s.written < |wire|)
    && NoAbort(events) && |wire| <= given + Room(events)
    && Hears(s.reading, s.stdout, events, Stdout, line + [NEWLINE])
    && Hears(s.draining, s.stderr, events, Stderr, aside)
    && (s.reading ==> Waits(wire, given, s.stdout, events))
  }

  predicate Replied(s: State, reply: Json) {
    s.reply == if NEWLINE in s.stdout then Some(reply) else None
  }

  lemma WriteUnderway(reader: Reader, wire: seq<Byte>, id: string, s: State, given: nat, events: seq<Event>,
                      line: seq<Byte>, aside: seq<Byte>, reply: Json)
    requires events != [] && events[0].Writable?
    requires Underway(wire, s, given, events, line, aside) && Replied(s, reply)
    ensures var next := Advance(reader, wire, id, s, events[0]);
            && next.Some? && Replied(next.value, reply)
            && Underway(wire, next.value, given + events[0].room, events[1..], line, aside)
  {
    HearsOther(s.reading, s.stdout, events, Stdout, line + [NEWLINE]);
    HearsOther(s.draining, s.stderr, events, Stderr, aside);
    if s.reading {
      WaitsNext(wire, given, s.stdout, events);
      Seqs.Empty(s.stdout);
    }
  }

  lemma AsideUnderway(reader: Reader, wire: seq<Byte>, id: string, s: State, given: nat, events: seq<Event>,
                      line: seq<Byte>, aside: seq<Byte>, reply: Json)
    requires events != [] && events[0].Readable? && events[0].stream.Stderr? && |aside| <= MAX_OUTPUT
    requires Underway(wire, s, given, events, line, aside) && Replied(s, reply)
    ensures var next := Advance(reader, wire, id, s, events[0]);
            && next.Some? && Replied(next.value, reply)
            && Underway(wire, next.value, given, events[1..], line, aside)
  {
    HearsOther(s.reading, s.stdout, events, Stdout, line + [NEWLINE]);
    if s.reading {
      WaitsNext(wire, given, s.stdout, events);
      Seqs.Empty(s.stdout);
    }
    if !s.draining {
      HearsOther(s.draining, s.stderr, events, Stderr, aside);
    } else if events[0].data == [] {
      HearsEnd(s.stderr, events, Stderr, aside);
    } else {
      HearsMore(s.stderr, events, Stderr, aside);
    }
  }

  lemma {:induction false} FirstLineOf(line: seq<Byte>)
    requires NEWLINE !in line
    ensures FirstLine(line + [NEWLINE]) == line
  {
    if line != [] {
      assert (line + [NEWLINE])[1..] == line[1..] + [NEWLINE];
      FirstLineOf(line[1..]);
    } else {
      assert line + [NEWLINE] == [NEWLINE];
    }
  }

  lemma NewlineLast(line: seq<Byte>, a: seq<Byte>, b: seq<Byte>)
    requires NEWLINE !in line && a + b == line + [NEWLINE]
    ensures NEWLINE in a <==> b == []
  {
    if b != [] {
      forall k | 0 <= k < |a|
        ensures a[k] != NEWLINE
      {
        assert a[k] == (a + b)[k] == line[k];
      }
    } else {
      assert a == line + [NEWLINE];
      assert a[|line|] == NEWLINE;
    }
  }

  /** Where the newline is heard, all of the line is. */
  lemma LineHeard(line: seq<Byte>, heard: seq<Byte>, later: seq<Byte>)
    requires NEWLINE !in line && heard + later == line + [NEWLINE]
    ensures NEWLINE in heard <==> heard == line + [NEWLINE]
    ensures NEWLINE in heard ==> later == [] && FirstLine(heard) == line
  {
    NewlineLast(line, heard, later);
    FirstLineOf(line);
    Seqs.Empty(heard);
  }

  lemma LineUnderway(reader: Reader, wire: seq<Byte>, id: string, s: State, given: nat, events: seq<Event>,
                     line: seq<Byte>, aside: seq<Byte>, reply: Json)
    requires events != [] && events[0].Readable? && events[0].stream.Stdout? && events[0].data != [] && s.reading
    requires NEWLINE !in line && Answers(reader, id, line, reply) && |line| < MAX_OUTPUT
    requires Underway(wire, s, given, events, line, aside) && Replied(s, reply)
    ensures var next := Advance(reader, wire, id, s, events[0]);
            && next.Some? && Replied(next.value, reply)
            && Underway(wire, next.value, given, events[1..], line, aside)
  {
    var said := s.stdout + events[0].data;
    HearsOther(s.draining, s.stderr, events, Stderr, aside);
    WaitsNext(wire, given, s.stdout, events);
    HearsMore(s.stdout, events, Stdout, line + [NEWLINE]);
    LineHeard(line, s.stdout, Spoken(events, Stdout));
    LineHeard(line, said, Spoken(events[1..], Stdout));
    if NEWLINE in said {
      WaitsNow(wire, given, said, events[1..]);
    }
  }

  lemma EndUnderway(reader: Reader, wire: seq<Byte>, id: string, s: State, given: nat, events: seq<Event>,
                    line: seq<Byte>, aside: seq<Byte>, reply: Json)
    requires events != [] && events[0].Readable? && events[0].stream.Stdout? && (events[0].data == [] || !s.reading)
    requires Underway(wire, s, given, events, line, aside) && Replied(s, reply)
    ensures var next := Advance(reader, wire, id, s, events[0]);
            && next.Some? && Replied(next.value, reply)
            && Underway(wire, next.value, given, events[1..], line, aside)
  {
    HearsOther(s.draining, s.stderr, events, Stderr, aside);
    if s.reading {
      HearsEnd(s.stdout, events, Stdout, line + [NEWLINE]);
    } else {
      HearsOther(s.reading, s.stdout, events, Stdout, line + [NEWLINE]);
    }
  }

  lemma Started(wire: seq<Byte>, events: seq<Event>, line: seq<Byte>, aside: seq<Byte>)
    requires wire != [] && Cooperates(wire, events, line, aside)
    ensures Underway(wire, START, 0, events, line, aside)
  {
    Seqs.Empty(line + [NEWLINE]);
    Seqs.Empty(aside);
  }

  lemma {:induction false} LoopPasses(reader: Reader, wire: seq<Byte>, id: string, s: State, given: nat,
                                      events: seq<Event>, line: seq<Byte>, aside: seq<Byte>, reply: Json)
    requires NEWLINE !in line && Answers(reader, id, line, reply) && |line| < MAX_OUTPUT && |aside| <= MAX_OUTPUT
    requires Underway(wire, s, given, events, line, aside) && Replied(s, reply)
    ensures Exchange(reader, wire, id, s, events)
         == Some(State(false, false, false, |wire|, line + [NEWLINE], aside, Some(reply)))
    decreases |events|
  {
    if s.writing || s.reading || s.draining {
      var e := events[0];
      if e.Writable? {
        WriteUnderway(reader, wire, id, s, given, events, line, aside, reply);
      } else if e.stream.Stderr? {
        AsideUnderway(reader, wire, id, s, given, events, line, aside, reply);
      } else if e.data == [] || !s.reading {
        EndUnderway(reader, wire, id, s, given, events, line, aside, reply);
      } else {
        LineUnderway(reader, wire, id, s, given, events, line, aside, reply);
      }
      var next := Advance(reader, wire, id, s, e).value;
      LoopPasses(reader, wire, id, next, given + (if e.Writable? then e.room else 0), events[1..], line, aside, reply);
    } else {
      assert (line + [NEWLINE])[|line|] == NEWLINE;
    }
  }

  /** A printed object reads as that object also before a line feed. */
  lemma PrintedLine(style: Style, ms: Members)
    requires Admitted(Obj(ms))
    ensures Loads(Unique, Print(style, Obj(ms))) == Some(Obj(ms))
    ensures Loads(Unique, Print(style, Obj(ms)) + "\n") == Some(Obj(ms))
  {
    LoadsPrint(style, Unique, Obj(ms));
    ObjectRoundTrip(style, Unique, ms, "\n");
    PrintBegins(style, Obj(ms));
    BeginsAppend(Print(style, Obj(ms)), "\n");
  }

  lemma ReplyAdmitted(id: string, ms: Members)
    requires Strict(Obj(ms)) && Same(Obj(ms), ExpectedReply(id))
    ensures Admitted(Obj(ms))
  {
    SameFloatFree(Obj(ms), ExpectedReply(id));
  }

  predicate ReadsAs(reader: Reader, text: string) {
    reader(Encode(text)) == Some(text)
  }

  /**
   * `json.loads` takes bytes for UTF-8 where they begin with a brace and hold no zero byte, as an object on one line
   * does.
   */
  ghost predicate ReadsObjects(reader: Reader) {
    forall text :: text != "" && text[0] == '{' && Visible(text) ==> ReadsAs(reader, text)
  }

  /** So the assumption on the reader can be met: by strict UTF-8. */
  lemma DecodeReadsObjects()
    ensures ReadsObjects(Decode)
  {
    forall text | text != "" && text[0] == '{' && Visible(text)
      ensures ReadsAs(Decode, text)
    {
      DecodeEncoded(text);
    }
  }

  function ReplyLine(style: Style, ms: Members): string {
    Print(style, Obj(ms))
  }

  lemma ReplyAnswers(reader: Reader, id: string, style: Style, ms: Members)
    requires ReadsObjects(reader) && Admitted(Obj(ms)) && Same(Obj(ms), ExpectedReply(id))
    ensures Answers(reader, id, Encode(ReplyLine(style, ms)), Obj(ms))
  {
    var text := ReplyLine(style, ms);
    PrintVisible(style, Obj(ms));
    PrintedLine(style, ms);
    assert text[0] == '{';
    assert ReadsAs(reader, text);
  }

  lemma ReplyRetained(r: Record, style: Style, ms: Members)
    requires Admitted(Obj(ms)) && r.reply == Obj(ms) && r.stdout == ReplyLine(style, ms) + "\n"
    ensures Retained(r)
  {
    PrintedLine(style, ms);
    PrintVisible(style, Obj(ms));
    LineBytes(ReplyLine(style, ms));
    SameIffSorted(CanonicalKeys, Obj(ms), Obj(ms));
  }

  /** An end that decodes to a record that passes its check. */
  lemma VerdictIs(r: Record, end: State)
    requires end.reply == Some(r.reply) && end.stdout == Encode(r.stdout) && end.stderr == Encode(r.stderr)
    requires CheckPreflight(r)
    ensures Verdict(r.bridge, r.id, r.deadlineMs, Some(end), Some(0), true) == Some(r)
  {
    DecodeEncoded(r.stdout);
    DecodeEncoded(r.stderr);
  }

  /**
   * In whatever order and sizes reads, writes and ends come: a child that takes the whole request, then answers it with
   * the expected object on one line, its members in any order, says any text within the bound on stderr, ends both
   * streams and exits cleanly gets a record, if that record keeps its bound.
   */
  lemma CooperativeBridgePasses(reader: Reader, bridge: Bridge, id: string, deadlineMs: int, events: seq<Event>,
                                style: Style, ms: Members, aside: string)
    requires ReadsObjects(reader) && Strict(Obj(ms)) && IsRejection(Obj(ms), id)
    requires Cooperates(Wire(id), events, Encode(ReplyLine(style, ms)), Encode(aside))
    requires |Encode(ReplyLine(style, ms) + "\n")| <= 4096 && |Encode(aside)| <= 4096
    requires 1 <= |Encode(bridge.path)| <= 4096 && Hex(bridge.sha256, 64)
    requires |id| == 48 && id[..16] == "algal-preflight-" && Hex(id[16..], 32)
    requires 1 <= deadlineMs <= 10000
    requires var r := Record(bridge, id, Obj(ms), ReplyLine(style, ms) + "\n", aside, deadlineMs);
             Canonical(RecordJson(r)).Ok? && |Encode(Canonical(RecordJson(r)).value)| <= 16384
    ensures Outcome(reader, bridge, id, deadlineMs, events, true, Some(0), true)
         == Some(Record(bridge, id, Obj(ms), ReplyLine(style, ms) + "\n", aside, deadlineMs))
  {
    var text := ReplyLine(style, ms);
    ExpectedReplyIs(Obj(ms), id);
    IdIs(id);
    ReplyAdmitted(id, ms);
    PrintVisible(style, Obj(ms));
    LineBytes(text);
    ReplyAnswers(reader, id, style, ms);
    Started(Wire(id), events, Encode(text), Encode(aside));
    LoopPasses(reader, Wire(id), id, START, 0, events, Encode(text), Encode(aside), Obj(ms));
    var record := Record(bridge, id, Obj(ms), text + "\n", aside, deadlineMs);
    ReplyRetained(record, style, ms);
    VerdictIs(record, State(false, false, false, |Wire(id)|, Encode(text) + [NEWLINE], Encode(aside), Some(Obj(ms))));
  }
}
