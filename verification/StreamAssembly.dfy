/** The stream loop of `_call_ollama_chat` in core/model_invoker.py and the exception
    branches behind it.

    A line is what reading and decoding made of it; cancellation is read once per
    line, and the provider control twice after the loop and once more by an exception
    branch. */
module StreamAssembly {
  import opened Wrappers
  import opened Text

  datatype Body = Blank | Undecodable | NonObject | Item(content: string, done: bool)

  /** Reading a line may raise an OSError, which may be a timeout. */
  datatype Line = Broken(timeout: bool) | Line(size: nat, cancelled: bool, body: Body)

  /** What a check of the provider control raises. */
  datatype Stop = OperatorStop | ResourceStop | DeadlineStop

  /** What ends the exchange early: a return inside the loop (`Cancelled`), an OSError
      (`SocketError`, `Raised`) or a ValueError (the others). */
  datatype Fault = OutputLimit | Cancelled | BadLine | Incomplete | SocketError(timeout: bool) | Raised(stop: Stop)

  datatype Error =
    | Defect(fault: Fault)
    | CutOff(cancelled: bool, timedOut: bool, limited: bool)
    | NoContent

  type Reply = Result<string, Error>

  function CharBytes(c: char): nat {
    var n := c as int;
    if n < 0x80 then 1 else if n < 0x800 then 2 else if n < 0x10000 then 3 else 4
  }

  ghost function Pow2(n: nat): nat {
    if n == 0 then 1 else 2 * Pow2(n - 1)
  }

  /** Bits of a code point that `k` bytes of UTF-8 carry (section 3 of RFC 3629): seven
      in one byte, else what the marks of the leading byte leave and six a further byte. */
  ghost function PayloadBits(k: nat): nat
    requires 1 <= k <= 4
  {
    if k == 1 then 7 else (7 - k) + 6 * (k - 1)
  }

  /** A character takes the fewest bytes that can carry its code point. */
  lemma {:induction false} CharBytesIsLeast(c: char)
    ensures 1 <= CharBytes(c) <= 4 && (c as int) < Pow2(PayloadBits(CharBytes(c)))
    ensures CharBytes(c) > 1 ==> (c as int) >= Pow2(PayloadBits(CharBytes(c) - 1))
  {
    assert Pow2(7) == 0x80 && Pow2(11) == 0x800 && Pow2(16) == 0x10000 && Pow2(21) == 0x200000;
  }

  /** UTF-8 size of the first `n` characters. */
  function PrefixBytes(s: string, n: nat): nat
    requires n <= |s|
  {
    if n == 0 then 0 else PrefixBytes(s, n - 1) + CharBytes(s[n - 1])
  }

  function Utf8Size(s: string): nat {
    PrefixBytes(s, |s|)
  }

  lemma {:induction false} PrefixBytesOfConcat(a: string, b: string, n: nat)
    requires n <= |a| + |b|
    ensures PrefixBytes(a + b, n) == if n <= |a| then PrefixBytes(a, n) else PrefixBytes(a, |a|) + PrefixBytes(b, n - |a|)
  {
    if n > 0 {
      PrefixBytesOfConcat(a, b, n - 1);
    }
  }

  lemma {:induction false} Utf8SizeOfConcat(a: string, b: string)
    ensures Utf8Size(a + b) == Utf8Size(a) + Utf8Size(b)
  {
    PrefixBytesOfConcat(a, b, |a| + |b|);
  }

  // ------------------------------------------------------------ specification

  function ContentOf(l: Line): string {
    if l.Line? && l.body.Item? then l.body.content else ""
  }

  predicate IsDone(l: Line) {
    l.Line? && l.body.Item? && l.body.done
  }

  /** The contents of the first `n` lines. */
  function Content(lines: seq<Line>, n: nat): string
    requires n <= |lines|
  {
    if n == 0 then "" else Content(lines, n - 1) + ContentOf(lines[n - 1])
  }

  /** UTF-8 size of the contents of the first `n` lines, added up line by line. */
  function Bytes(lines: seq<Line>, n: nat): nat
    requires n <= |lines|
  {
    if n == 0 then 0 else Bytes(lines, n - 1) + Utf8Size(ContentOf(lines[n - 1]))
  }

  lemma {:induction false} BytesOfContent(lines: seq<Line>, n: nat)
    requires n <= |lines|
    ensures Bytes(lines, n) == Utf8Size(Content(lines, n))
  {
    if n > 0 {
      BytesOfContent(lines, n - 1);
      Utf8SizeOfConcat(Content(lines, n - 1), ContentOf(lines[n - 1]));
    }
  }

  /** Index of the first done line at or after `from`, or the number of lines. */
  function DoneIndex(lines: seq<Line>, from: nat): (k: nat)
    requires from <= |lines|
    ensures from <= k <= |lines| && (k < |lines| ==> IsDone(lines[k]))
    ensures forall j :: from <= j < k ==> !IsDone(lines[j])
    decreases |lines| - from
  {
    if from == |lines| || IsDone(lines[from]) then from else DoneIndex(lines, from + 1)
  }

  predicate Exceeds(bytes: nat, limit: Option<nat>) {
    limit.Some? && bytes > limit.value
  }

  /** The first thing wrong with the first `n` lines; a total over the limit is the
      fault of the line that passes it. */
  function FirstFault(lines: seq<Line>, n: nat, limit: Option<nat>): (r: Option<Fault>)
    requires n <= |lines|
    ensures r.Some? ==> !r.value.Raised? && !r.value.Incomplete?
  {
    if n == 0 then None
    else
      var before, last := FirstFault(lines, n - 1, limit), lines[n - 1];
      if before.Some? then before
      else if last.Broken? then Some(SocketError(last.timeout))
      else if Exceeds(last.size, limit) then Some(OutputLimit)
      else if last.cancelled then Some(Cancelled)
      else if last.body.Undecodable? then Some(BadLine)
      else if Exceeds(Bytes(lines, n), limit) then Some(OutputLimit)
      else None
  }

  /** How many lines are read: up to and including the first done line. */
  function Seen(lines: seq<Line>): (n: nat)
    ensures n <= |lines|
  {
    var k := DoneIndex(lines, 0);
    if k < |lines| then k + 1 else k
  }

  /** The reason on record once the exception branch has checked again: an operator's
      stop overrides, any other recorded reason stays. */
  function Recorded(raised: Option<Stop>, now: Option<Stop>): Option<Stop> {
    if raised == Some(OperatorStop) || now == Some(OperatorStop) then Some(OperatorStop)
    else if raised.Some? then raised
    else now
  }

  /** What the branch that handles a fault returns; `now` is what its own check sees. */
  function Reported(fault: Fault, now: Option<Stop>): Error {
    var reason := Recorded(if fault.Raised? then Some(fault.stop) else None, now);
    if fault.Cancelled? then CutOff(true, false, false)
    else if reason == Some(ResourceStop) then CutOff(false, false, true)
    else
      var cancelled := reason == Some(OperatorStop);
      var timedOut :=
        match fault
        case SocketError(timeout) => timeout || reason == Some(DeadlineStop)
        case Raised(stop) => stop == DeadlineStop
        case _ => reason == Some(DeadlineStop);
      if cancelled || timedOut then CutOff(cancelled, timedOut, false) else Defect(fault)
  }

  /** The fault of the whole exchange, if there is one; `stopAfter` and `stopLate` are
      what the control checks after the loop raise. */
  function ExchangeFault(lines: seq<Line>, limit: Option<nat>, stopAfter: Option<Stop>,
                         stopLate: Option<Stop>): Option<Fault>
  {
    var fault := FirstFault(lines, Seen(lines), limit);
    if fault.Some? then fault
    else if stopAfter.Some? then Some(Raised(stopAfter.value))
    else if DoneIndex(lines, 0) == |lines| then Some(Incomplete)
    else if stopLate.Some? then Some(Raised(stopLate.value))
    else None
  }

  function Assembled(lines: seq<Line>, limit: Option<nat>, stopAfter: Option<Stop>, stopLate: Option<Stop>,
                     now: Option<Stop>): Reply
  {
    var fault, text := ExchangeFault(lines, limit, stopAfter, stopLate), Strip(Content(lines, Seen(lines)));
    if fault.Some? then Failure(Reported(fault.value, now))
    else if text == "" then Failure(NoContent)
    else Success(text)
  }

  // ------------------------------------------------------------------ the loop

  /** A fault met early stays the first fault. */
  lemma {:induction false} FaultPersists(lines: seq<Line>, n: nat, m: nat, limit: Option<nat>)
    requires n <= m <= |lines| && FirstFault(lines, n, limit).Some?
    ensures FirstFault(lines, m, limit) == FirstFault(lines, n, limit)
    decreases m
  {
    if n < m {
      FaultPersists(lines, n, m - 1, limit);
    }
  }

  /** A fault met while lines are still read is the fault of the exchange. */
  lemma {:induction false} FaultEnds(lines: seq<Line>, i: nat, limit: Option<nat>, stopAfter: Option<Stop>)
    requires i <= Seen(lines) && FirstFault(lines, i, limit).Some?
    ensures ExchangeFault(lines, limit, stopAfter, None) == FirstFault(lines, i, limit)
  {
    FaultPersists(lines, i, Seen(lines), limit);
  }

  /** One line, behind lines that are in order. */
  method ReadLine(lines: seq<Line>, i: nat, limit: Option<nat>, chunks: string, outputBytes: nat)
    returns (fault: Option<Fault>, chunks': string, outputBytes': nat, done: bool)
    requires i < |lines| && chunks == Content(lines, i) && outputBytes == Bytes(lines, i)
    requires FirstFault(lines, i, limit) == None
    ensures fault == FirstFault(lines, i + 1, limit)
    ensures fault.None? ==>
              && chunks' == Content(lines, i + 1) && outputBytes' == Bytes(lines, i + 1) && (done <==> IsDone(lines[i]))
  {
    var line := lines[i];
    fault, chunks', outputBytes', done := None, chunks, outputBytes, false;
    if line.Broken? {
      fault := Some(SocketError(line.timeout));
    } else if Exceeds(line.size, limit) {
      fault := Some(OutputLimit);
    } else if line.cancelled {
      fault := Some(Cancelled);
    } else if line.body.Undecodable? {
      fault := Some(BadLine);
    } else if line.body.Item? {
      if line.body.content != "" {
        outputBytes' := outputBytes + Utf8Size(line.body.content);
        chunks' := chunks + line.body.content;
        if Exceeds(outputBytes', limit) {
          fault := Some(OutputLimit);
        }
      }
      done := line.body.done;
    }
  }

  /** The loop: the joined contents, or the fault that ends it. */
  method ReadLines(lines: seq<Line>, limit: Option<nat>, stopAfter: Option<Stop>) returns (r: Result<string, Fault>)
    ensures var fault := ExchangeFault(lines, limit, stopAfter, None);
            r == if fault.Some? then Failure(fault.value) else Success(Content(lines, Seen(lines)))
  {
    var chunks, outputBytes, done := "", 0, false;
    var i := 0;
    while i < |lines| && !done
      invariant 0 <= i <= |lines|
      invariant i <= DoneIndex(lines, 0) + 1 && (done <==> i == DoneIndex(lines, 0) + 1)
      invariant chunks == Content(lines, i) && outputBytes == Bytes(lines, i)
      invariant FirstFault(lines, i, limit) == None
    {
      var fault;
      fault, chunks, outputBytes, done := ReadLine(lines, i, limit, chunks, outputBytes);
      i := i + 1;
      if fault.Some? {
        FaultEnds(lines, i, limit, stopAfter);
        return Failure(fault.value);
      }
    }
    if stopAfter.Some? {
      return Failure(Raised(stopAfter.value));
    }
    return if done then Success(chunks) else Failure(Incomplete);
  }

  /** The exception branches: each checks the control again before it answers. */
  method Handle(fault: Fault, now: Option<Stop>) returns (e: Error)
    ensures e == Reported(fault, now)
  {
    if fault.Cancelled? {
      return CutOff(true, false, false);
    }
    var reason := if fault.Raised? then Some(fault.stop) else None;
    if reason == Some(OperatorStop) || now == Some(OperatorStop) {
      reason := Some(OperatorStop);
    } else if reason.None? {
      reason := now;
    }
    if reason == Some(ResourceStop) {
      return CutOff(false, false, true);
    }
    var cancelled, timedOut := reason == Some(OperatorStop), reason == Some(DeadlineStop);
    if fault.SocketError? {
      timedOut := timedOut || fault.timeout;
    } else if fault.Raised? {
      timedOut := fault.stop == DeadlineStop;
    }
    return if cancelled || timedOut then CutOff(cancelled, timedOut, false) else Defect(fault);
  }

  method ReadStream(lines: seq<Line>, limit: Option<nat>, stopAfter: Option<Stop>, stopLate: Option<Stop>,
                    now: Option<Stop>)
    returns (r: Reply)
    ensures r == Assembled(lines, limit, stopAfter, stopLate, now)
  {
    var content := ReadLines(lines, limit, stopAfter);
    if content.Failure? {
      var error := Handle(content.error, now);
      return Failure(error);
    }
    if stopLate.Some? {
      var error := Handle(Raised(stopLate.value), now);
      return Failure(error);
    }
    var text := Strip(content.value);
    return if text == "" then Failure(NoContent) else Success(text);
  }

  // --------------------------------------------------------------- properties

  /** Only the items of a stream carry text, each its own content. */
  lemma {:induction false} ContentAdds(lines: seq<Line>, n: nat)
    requires n < |lines|
    ensures lines[n].Line? && lines[n].body.Item? ==> Content(lines, n + 1) == Content(lines, n) + lines[n].body.content
    ensures !(lines[n].Line? && lines[n].body.Item?) ==> Content(lines, n + 1) == Content(lines, n)
    ensures Content(lines, 0) == ""
  {
  }

  /** The first `n` lines are read, within the limit, uncancelled and decodable. */
  ghost predicate AllClean(lines: seq<Line>, n: nat, limit: Option<nat>)
    requires n <= |lines|
  {
    forall i :: 0 <= i < n ==>
      lines[i].Line? && !Exceeds(lines[i].size, limit) && !lines[i].cancelled && !lines[i].body.Undecodable?
  }

  /** Lines that are all in order fail exactly when their text is too long. */
  lemma {:induction false} CleanLinesFault(lines: seq<Line>, n: nat, limit: Option<nat>)
    requires n <= |lines| && AllClean(lines, n, limit)
    ensures FirstFault(lines, n, limit) == if Exceeds(Bytes(lines, n), limit) then Some(OutputLimit) else None
  {
    if n > 0 {
      CleanLinesFault(lines, n - 1, limit);
    }
  }

  lemma {:induction false} FaultlessLines(lines: seq<Line>, n: nat, limit: Option<nat>)
    requires n <= |lines| && FirstFault(lines, n, limit) == None
    ensures AllClean(lines, n, limit)
  {
    if n > 0 {
      FaultlessLines(lines, n - 1, limit);
    }
  }

  /** What is wrong with a line, once the lines before it were in order; `bytes` is the
      size of the text with it. */
  ghost predicate LineFault(l: Line, bytes: nat, limit: Option<nat>, fault: Fault) {
    match fault
    case SocketError(timeout) => l == Broken(timeout)
    case OutputLimit =>
      && l.Line? && limit.Some?
      && (l.size > limit.value || (!l.cancelled && !l.body.Undecodable? && bytes > limit.value))
    case Cancelled => l.Line? && !(limit.Some? && l.size > limit.value) && l.cancelled
    case BadLine => l.Line? && !(limit.Some? && l.size > limit.value) && !l.cancelled && l.body.Undecodable?
    case _ => false
  }

  /** Line `i` is the first that is not in order. */
  ghost predicate FaultyAt(lines: seq<Line>, i: nat, limit: Option<nat>, fault: Fault) {
    && i < |lines| && AllClean(lines, i, limit) && !(limit.Some? && Utf8Size(Content(lines, i)) > limit.value)
    && LineFault(lines[i], Utf8Size(Content(lines, i + 1)), limit, fault)
  }

  lemma {:induction false} FaultFree(lines: seq<Line>, n: nat, limit: Option<nat>)
    requires n <= |lines|
    ensures FirstFault(lines, n, limit) == None <==>
            AllClean(lines, n, limit) && !(limit.Some? && Utf8Size(Content(lines, n)) > limit.value)
  {
    BytesOfContent(lines, n);
    if FirstFault(lines, n, limit) == None {
      FaultlessLines(lines, n, limit);
    }
    if AllClean(lines, n, limit) {
      CleanLinesFault(lines, n, limit);
    }
  }

  /** The fault that one more line adds. */
  lemma {:induction false} FaultAdded(lines: seq<Line>, i: nat, limit: Option<nat>, fault: Fault)
    requires i < |lines| && FirstFault(lines, i, limit) == None
    ensures FirstFault(lines, i + 1, limit) == Some(fault) <==> LineFault(lines[i], Bytes(lines, i + 1), limit, fault)
  {
  }

  lemma {:induction false} FaultStep(lines: seq<Line>, i: nat, limit: Option<nat>, fault: Fault)
    requires i < |lines|
    ensures FaultyAt(lines, i, limit, fault) <==>
            FirstFault(lines, i, limit) == None && FirstFault(lines, i + 1, limit) == Some(fault)
  {
    FaultFree(lines, i, limit);
    if FirstFault(lines, i, limit) == None {
      FaultAdded(lines, i, limit, fault);
      BytesOfContent(lines, i + 1);
    }
  }

  lemma {:induction false} FaultOrigin(lines: seq<Line>, n: nat, limit: Option<nat>, fault: Fault) returns (i: nat)
    requires n <= |lines| && FirstFault(lines, n, limit) == Some(fault)
    ensures i < n && FaultyAt(lines, i, limit, fault)
  {
    if FirstFault(lines, n - 1, limit) == None {
      i := n - 1;
      FaultStep(lines, i, limit, fault);
    } else {
      i := FaultOrigin(lines, n - 1, limit, fault);
    }
  }

  /** The fault reported for some lines is that of the first one that is not in order. */
  lemma {:induction false} FaultExact(lines: seq<Line>, n: nat, limit: Option<nat>, fault: Fault)
    requires n <= |lines|
    ensures FirstFault(lines, n, limit) == Some(fault) <==>
            exists i: nat :: i < n && FaultyAt(lines, i, limit, fault)
  {
    if FirstFault(lines, n, limit) == Some(fault) {
      var i := FaultOrigin(lines, n, limit, fault);
    }
    if i: nat :| i < n && FaultyAt(lines, i, limit, fault) {
      FaultStep(lines, i, limit, fault);
      FaultPersists(lines, i + 1, n, limit);
    }
  }

  /** `k` is the first done line. */
  ghost predicate FirstDone(lines: seq<Line>, k: nat) {
    && k < |lines| && lines[k].Line? && lines[k].body.Item? && lines[k].body.done
    && forall j :: 0 <= j < k && lines[j].Line? && lines[j].body.Item? ==> !lines[j].body.done
  }

  /** The first done line is line `k`, all lines up to it are in order and their
      contents are within the limit; stripped, they are `text`. */
  ghost predicate Delivers(lines: seq<Line>, limit: Option<nat>, text: string, k: nat) {
    && FirstDone(lines, k) && AllClean(lines, k + 1, limit)
    && !Exceeds(Utf8Size(Content(lines, k + 1)), limit) && text == Strip(Content(lines, k + 1))
  }

  lemma {:induction false} FirstDoneIsUnique(lines: seq<Line>, k: nat, m: nat)
    requires FirstDone(lines, k) && m == DoneIndex(lines, 0)
    ensures k == m
  {
  }

  lemma {:induction false} DeliversExact(lines: seq<Line>, limit: Option<nat>, text: string, k: nat)
    requires FirstDone(lines, k)
    ensures Delivers(lines, limit, text, k) <==>
              FirstFault(lines, k + 1, limit) == None && text == Strip(Content(lines, k + 1))
  {
    BytesOfContent(lines, k + 1);
    if FirstFault(lines, k + 1, limit) == None {
      FaultlessLines(lines, k + 1, limit);
    }
    if AllClean(lines, k + 1, limit) {
      CleanLinesFault(lines, k + 1, limit);
    }
  }

  lemma {:induction false} SuccessAt(lines: seq<Line>, limit: Option<nat>, stopAfter: Option<Stop>,
                                     stopLate: Option<Stop>, now: Option<Stop>, text: string, k: nat)
    requires k == DoneIndex(lines, 0)
    ensures Assembled(lines, limit, stopAfter, stopLate, now) == Success(text) <==>
              stopAfter == None && stopLate == None && text != "" && Delivers(lines, limit, text, k)
  {
    if k < |lines| {
      DeliversExact(lines, limit, text, k);
    }
  }

  /** A reply succeeds with `text` exactly when some done line was read, every line
      up to the first one is in order, their contents are within the limit and
      `text` is those contents concatenated and stripped. */
  lemma {:induction false} SuccessMeans(lines: seq<Line>, limit: Option<nat>, stopAfter: Option<Stop>,
                                        stopLate: Option<Stop>, now: Option<Stop>, text: string)
    ensures Assembled(lines, limit, stopAfter, stopLate, now) == Success(text) <==>
              stopAfter == None && stopLate == None && text != "" && exists k: nat :: Delivers(lines, limit, text, k)
  {
    var k := DoneIndex(lines, 0);
    SuccessAt(lines, limit, stopAfter, stopLate, now, text, k);
    if m: nat :| Delivers(lines, limit, text, m) {
      FirstDoneIsUnique(lines, m, k);
    }
  }

  /** The stream carries `text` in lines that are in order, cut up in any way. */
  ghost predicate Carries(lines: seq<Line>, text: string, limit: Option<nat>) {
    exists k: nat :: FirstDone(lines, k) && AllClean(lines, k + 1, limit) && Content(lines, k + 1) == text
  }

  lemma {:induction false} CarriedReply(lines: seq<Line>, text: string, limit: Option<nat>, stopAfter: Option<Stop>,
                                        stopLate: Option<Stop>, now: Option<Stop>)
    requires Carries(lines, text, limit)
    ensures Assembled(lines, limit, stopAfter, stopLate, now) ==
              if Exceeds(Utf8Size(text), limit) then Failure(Reported(OutputLimit, now))
              else if stopAfter.Some? then Failure(Reported(Raised(stopAfter.value), now))
              else if stopLate.Some? then Failure(Reported(Raised(stopLate.value), now))
              else if Strip(text) == "" then Failure(NoContent)
              else Success(Strip(text))
  {
    var k: nat :| FirstDone(lines, k) && AllClean(lines, k + 1, limit) && Content(lines, k + 1) == text;
    assert DoneIndex(lines, 0) == k;
    CleanLinesFault(lines, k + 1, limit);
    BytesOfContent(lines, k + 1);
  }

  /** How a text is cut into chunks does not matter, not even for exceeding the limit. */
  lemma {:induction false} RechunkingIsInvisible(a: seq<Line>, b: seq<Line>, text: string, limit: Option<nat>,
                                                 stopAfter: Option<Stop>, stopLate: Option<Stop>, now: Option<Stop>)
    requires Carries(a, text, limit) && Carries(b, text, limit)
    ensures Assembled(a, limit, stopAfter, stopLate, now) == Assembled(b, limit, stopAfter, stopLate, now)
  {
    CarriedReply(a, text, limit, stopAfter, stopLate, now);
    CarriedReply(b, text, limit, stopAfter, stopLate, now);
  }

  /** Some line that is read was cancelled. */
  ghost predicate CancelledInLoop(lines: seq<Line>) {
    exists i :: 0 <= i < Seen(lines) && lines[i].Line? && lines[i].cancelled
  }

  /** What an exception branch reports, flag by flag. A stop that ended the exchange
      keeps its name unless the operator's stop is seen by then; a fault of another kind
      takes the name of whatever stop is seen by then, and a socket timeout is one too. */
  lemma {:induction false} ReportedExact(fault: Fault, now: Option<Stop>)
    ensures var error := Reported(fault, now);
            && (error.CutOff? && error.cancelled <==>
                  fault.Cancelled? || fault == Raised(OperatorStop) || now == Some(OperatorStop))
            && (error.CutOff? && error.limited <==>
                  || (fault == Raised(ResourceStop) && now != Some(OperatorStop))
                  || (!fault.Cancelled? && !fault.Raised? && now == Some(ResourceStop)))
            && (error.CutOff? && error.timedOut <==>
                  || fault == Raised(DeadlineStop)
                  || (fault == SocketError(true) && now != Some(ResourceStop))
                  || (!fault.Cancelled? && !fault.Raised? && now == Some(DeadlineStop)))
            && (error.Defect? <==>
                  !fault.Cancelled? && !fault.Raised? && fault != SocketError(true) && now.None?)
            && (error.Defect? ==> error.fault == fault)
            && !error.NoContent?
  {
    assert fault.Raised? ==> fault.stop.OperatorStop? || fault.stop.ResourceStop? || fault.stop.DeadlineStop?;
    assert now.Some? ==> now.value.OperatorStop? || now.value.ResourceStop? || now.value.DeadlineStop?;
  }

  /** Some line that is read is the first that is not in order. */
  ghost predicate FaultyLine(lines: seq<Line>, limit: Option<nat>, fault: Fault) {
    exists i: nat :: i < Seen(lines) && FaultyAt(lines, i, limit, fault)
  }

  /** Every line that is read is in order, and their text is within the limit. */
  ghost predicate InOrder(lines: seq<Line>, limit: Option<nat>) {
    AllClean(lines, Seen(lines), limit) && !(limit.Some? && Utf8Size(Content(lines, Seen(lines))) > limit.value)
  }

  ghost predicate SomeDone(lines: seq<Line>) {
    exists k: nat :: FirstDone(lines, k)
  }

  lemma {:induction false} SomeDoneExact(lines: seq<Line>)
    ensures SomeDone(lines) <==> DoneIndex(lines, 0) < |lines|
  {
    if DoneIndex(lines, 0) < |lines| {
      assert FirstDone(lines, DoneIndex(lines, 0));
    }
  }

  /** What ends an exchange: the first line that is not in order if it is read, else what
      the check behind the loop raises, else a stream without a done line, else what the
      last check raises. */
  lemma {:induction false} ExchangeFaultExact(lines: seq<Line>, limit: Option<nat>, stopAfter: Option<Stop>,
                                              stopLate: Option<Stop>, fault: Fault)
    ensures ExchangeFault(lines, limit, stopAfter, stopLate) == Some(fault) <==>
            || FaultyLine(lines, limit, fault)
            || (InOrder(lines, limit)
                && if stopAfter.Some? then fault == Raised(stopAfter.value)
                   else if !SomeDone(lines) then fault.Incomplete?
                   else stopLate.Some? && fault == Raised(stopLate.value))
  {
    FaultExact(lines, Seen(lines), limit, fault);
    FaultFree(lines, Seen(lines), limit);
    SomeDoneExact(lines);
  }

  lemma {:induction false} CancelledFault(lines: seq<Line>, n: nat, limit: Option<nat>) returns (i: nat)
    requires n <= |lines| && FirstFault(lines, n, limit) == Some(Cancelled)
    ensures i < n && lines[i].Line? && lines[i].cancelled
  {
    if FirstFault(lines, n - 1, limit).Some? {
      i := CancelledFault(lines, n - 1, limit);
    } else {
      i := n - 1;
    }
  }

  /** What the flags of a cut-off say. An operator's stop that the last check sees
      outranks whatever went wrong; a cut-off for resources carries no other flag and
      was asked for; an exchange reported as cancelled was cancelled. */
  lemma {:induction false} CutOffMeans(lines: seq<Line>, limit: Option<nat>, stopAfter: Option<Stop>,
                                       stopLate: Option<Stop>, now: Option<Stop>)
    requires Assembled(lines, limit, stopAfter, stopLate, now).Failure?
    ensures var error := Assembled(lines, limit, stopAfter, stopLate, now).error;
            && (now == Some(OperatorStop) && error != NoContent ==> error.CutOff? && error.cancelled && !error.limited)
            && (error.CutOff? && error.limited ==>
                  !error.cancelled && !error.timedOut && Some(ResourceStop) in {stopAfter, stopLate, now})
            && (error.CutOff? && error.cancelled ==>
                  CancelledInLoop(lines) || Some(OperatorStop) in {stopAfter, stopLate, now})
            && (error.CutOff? ==> error.cancelled || error.timedOut || error.limited)
  {
    if FirstFault(lines, Seen(lines), limit) == Some(Cancelled) {
      var i := CancelledFault(lines, Seen(lines), limit);
      assert CancelledInLoop(lines);
    }
  }
}
