/**
 The results upload of agent/worker.py: the multipart body as a lazily opened
 stream, and the retry loop that sends it.
 */
module Upload {
  import opened Prelude
  import opened TokenBuckets

  newtype Byte = b: int | 0 <= b < 256

  /******* The stream *******/

  /**
   `file` is what the archive holds when it is read, `size` what `stat` said it held
   when the body was made; `handle` is the position of the open file.
   */
  datatype Body = Body(prefix: seq<Byte>, file: seq<Byte>, size: nat, suffix: seq<Byte>,
                       chunk: nat, handle: Option<nat>, offset: nat)

  /** What there is to send: all three parts, or up to where a truncated archive ends. */
  function Content(b: Body): seq<Byte> {
    if b.size <= |b.file| then b.prefix + b.file[..b.size] + b.suffix else b.prefix + b.file
  }

  /** `len(self)`, the Content-Length announced. */
  function Announced(b: Body): nat {
    |b.prefix| + b.size + |b.suffix|
  }

  function Upto(n: nat, m: nat): nat {
    if n <= m then n else m
  }

  function Slice(s: seq<Byte>, start: nat, size: nat): seq<Byte> {
    if start >= |s| then [] else s[start..Upto(start + size, |s|)]
  }

  /** `_slice`: the next bytes, and the handle after reading them. */
  function NextSlice(b: Body, size: nat): (seq<Byte>, Option<nat>) {
    var prefixEnd := |b.prefix|;
    var archiveEnd := prefixEnd + b.size;
    if b.offset < prefixEnd then (Slice(b.prefix, b.offset, size), b.handle)
    else if b.offset < archiveEnd then
      var position := if b.handle.Some? then b.handle.value else b.offset - prefixEnd;
      var chunk := Slice(b.file, position, Upto(size, archiveEnd - b.offset));
      (chunk, Some(position + |chunk|))
    else (Slice(b.suffix, b.offset - archiveEnd, size), b.handle)
  }

  function Close(b: Body): Body {
    b.(handle := None)
  }

  function Reset(b: Body): Body {
    Close(b).(offset := 0)
  }

  /** `read`: a negative size asks for a chunk. */
  function Read(b: Body, size: int): (Body, seq<Byte>) {
    var want := if size < 0 then b.chunk else Upto(size, b.chunk);
    if b.offset >= Announced(b) then (Close(b), [])
    else
      var (chunk, handle) := NextSlice(b, want);
      if chunk == [] then (Close(b), []) else (b.(handle := handle, offset := b.offset + |chunk|), chunk)
  }

  /** Inside the archive an open handle stands where the offset says. */
  predicate InStep(b: Body) {
    && b.offset <= |Content(b)|
    && (b.handle.Some? ==> b.offset >= |b.prefix|)
    && (b.handle.Some? && b.offset <= |b.prefix| + b.size ==> b.handle.value == b.offset - |b.prefix|)
  }

  /** The chunk is the next part of the content, empty only at its end. */
  predicate Follows(b: Body, chunk: seq<Byte>) {
    && b.offset + |chunk| <= |Content(b)| && chunk == Content(b)[b.offset..b.offset + |chunk|]
    && (chunk == [] <==> b.offset == |Content(b)|)
  }

  lemma PrefixPart(b: Body, size: nat)
    requires InStep(b) && size > 0 && b.offset < |b.prefix|
    ensures Follows(b, NextSlice(b, size).0)
  {
    assert Content(b)[..|b.prefix|] == b.prefix;
  }

  /** Where the archive lies in the content, as far as it goes. */
  lemma ArchiveInContent(b: Body)
    ensures var p, n := |b.prefix|, Upto(b.size, |b.file|);
            p + n <= |Content(b)| && Content(b)[p..p + n] == b.file[..n]
            && (b.size > |b.file| ==> |Content(b)| == p + n)
  {
  }

  lemma SliceOfPart(whole: seq<Byte>, at: nat, part: seq<Byte>, start: nat, k: nat)
    requires at + |part| <= |whole| && whole[at..at + |part|] == part && start + k <= |part|
    ensures whole[at + start..at + start + k] == part[start..start + k]
  {
    var a, b := whole[at + start..at + start + k], part[start..start + k];
    forall i | 0 <= i < k
      ensures a[i] == b[i]
    {
      assert whole[at..at + |part|][start + i] == part[start + i];
    }
  }

  lemma SliceIsNext(s: seq<Byte>, start: nat, size: nat)
    requires start <= |s|
    ensures var c := Slice(s, start, size);
            && start + |c| <= |s| && c == s[start..start + |c|] && |c| <= size
            && (c == [] <==> start == |s| || size == 0)
  {
  }

  lemma ArchivePart(b: Body, size: nat)
    requires InStep(b) && size > 0 && |b.prefix| <= b.offset < |b.prefix| + b.size
    ensures Follows(b, NextSlice(b, size).0)
    ensures NextSlice(b, size).1 == Some(b.offset - |b.prefix| + |NextSlice(b, size).0|)
  {
    hide Content, Slice;
    ArchiveInContent(b);
    var p, n := |b.prefix|, Upto(b.size, |b.file|);
    var start := b.offset - p;
    SliceIsNext(b.file, start, Upto(size, b.size - start));
    var chunk := NextSlice(b, size).0;
    SliceOfPart(b.file, 0, b.file[..n], start, |chunk|);
    SliceOfPart(Content(b), p, b.file[..n], start, |chunk|);
  }

  lemma SuffixInContent(b: Body)
    requires b.size <= |b.file|
    ensures var e := |b.prefix| + b.size; e + |b.suffix| == |Content(b)| && Content(b)[e..e + |b.suffix|] == b.suffix
  {
  }

  lemma SuffixPart(b: Body, size: nat)
    requires InStep(b) && size > 0 && |b.prefix| + b.size <= b.offset < Announced(b)
    ensures Follows(b, NextSlice(b, size).0)
  {
    assert b.size <= |b.file|;
    hide Content, Slice;
    SuffixInContent(b);
    var e := |b.prefix| + b.size;
    SliceIsNext(b.suffix, b.offset - e, size);
    SliceOfPart(Content(b), e, b.suffix, b.offset - e, |NextSlice(b, size).0|);
  }

  /** A read hands out the next bytes of the content, and nothing only at its end. */
  lemma ReadRefines(b: Body, size: int)
    requires InStep(b) && size != 0 && b.chunk > 0
    ensures var (b', chunk) := Read(b, size);
            && Follows(b, chunk) && b'.offset == b.offset + |chunk|
            && InStep(b') && Content(b') == Content(b) && b'.chunk == b.chunk
  {
    hide Follows, Slice;
    var want := if size < 0 then b.chunk else Upto(size, b.chunk);
    if b.offset >= Announced(b) {
      AtTheEnd(b);
    } else if b.offset < |b.prefix| {
      PrefixPart(b, want);
    } else if b.offset < |b.prefix| + b.size {
      ArchivePart(b, want);
    } else {
      SuffixPart(b, want);
    }
    Fits(b, Read(b, size).1);
  }

  /** No read hands out more than was asked for, nor more than a chunk. */
  lemma ReadFits(b: Body, size: int)
    requires InStep(b)
    ensures |Read(b, size).1| <= b.chunk && (size >= 0 ==> |Read(b, size).1| <= size)
  {
    hide Content;
  }

  lemma AtTheEnd(b: Body)
    requires InStep(b) && b.offset >= Announced(b)
    ensures Follows(b, [])
  {
  }

  lemma Fits(b: Body, chunk: seq<Byte>)
    requires Follows(b, chunk)
    ensures b.offset + |chunk| <= |Content(b)|
  {
  }

  lemma NextPart(b: Body, chunk: seq<Byte>)
    requires InStep(b) && Follows(b, chunk)
    ensures Content(b)[..b.offset] + chunk == Content(b)[..b.offset + |chunk|]
    ensures chunk == [] <==> Content(b)[..b.offset] == Content(b)
  {
    hide Content;
  }

  datatype Op = DoRead(size: int) | DoClose | DoReset

  predicate NonZero(ops: seq<Op>) {
    forall i :: 0 <= i < |ops| ==> ops[i].DoRead? ==> ops[i].size != 0
  }

  /** The body after a sequence of calls, and the bytes handed out since the last reset. */
  function Replay(b: Body, sent: seq<Byte>, ops: seq<Op>): (Body, seq<Byte>)
    decreases |ops|
  {
    if ops == [] then (b, sent)
    else
      match ops[0]
      case DoRead(size) => Replay(Read(b, size).0, sent + Read(b, size).1, ops[1..])
      case DoClose => Replay(Close(b), sent, ops[1..])
      case DoReset => Replay(Reset(b), [], ops[1..])
  }

  lemma SameContent(b: Body)
    ensures Content(Close(b)) == Content(Reset(b)) == Content(b)
  {
  }

  /**
   Stream refinement: for every sequence of non-zero reads, with close and reset
   anywhere, what was handed out since the last reset is a prefix of the content, the
   offset is its length, and a read then answers nothing exactly when it is all of it.
   */
  lemma {:induction false} StreamRefines(b: Body, sent: seq<Byte>, ops: seq<Op>, size: int)
    requires InStep(b) && b.chunk > 0 && sent == Content(b)[..b.offset] && NonZero(ops) && size != 0
    ensures var (b', sent') := Replay(b, sent, ops);
            && InStep(b') && Content(b') == Content(b)
            && sent' == Content(b)[..b'.offset]
            && (Read(b', size).1 == [] <==> sent' == Content(b))
    decreases |ops|
  {
    hide Read, NextSlice, Content;
    if ops == [] {
      ReadRefines(b, size);
      assert sent == Content(b) <==> b.offset == |Content(b)|;
    } else {
      SameContent(b);
      match ops[0] {
        case DoRead(n) =>
          ReadRefines(b, n);
          var (b', chunk) := Read(b, n);
          assert sent + chunk == Content(b)[..b'.offset];
          StreamRefines(b', sent + chunk, ops[1..], size);
        case DoClose => StreamRefines(Close(b), sent, ops[1..], size);
        case DoReset => StreamRefines(Reset(b), [], ops[1..], size);
      }
    }
  }

  /** What is announced is what is sent, exactly when the archive did not shrink. */
  lemma AnnouncedLength(b: Body)
    ensures |Content(b)| == Announced(b) <==> b.size <= |b.file|
    ensures b.size == |b.file| ==> Content(b) == b.prefix + b.file + b.suffix
  {
    assert b.file[..|b.file|] == b.file;
  }

  class ThrottledBody {
    var body: Body
    const bucket: TokenBucket
    ghost var sent: seq<Byte>

    ghost predicate Valid()
      reads this, bucket
    {
      bucket.Valid() && InStep(body) && body.chunk > 0 && sent == Content(body)[..body.offset]
    }

    constructor (prefix: seq<Byte>, archive: seq<Byte>, suffix: seq<Byte>, bucket: TokenBucket, chunk: nat)
      requires bucket.Valid() && chunk > 0
      ensures Valid() && this.bucket == bucket && sent == []
      ensures Content(body) == prefix + archive + suffix && |Content(body)| == Announced(body)
    {
      body := Body(prefix, archive, |archive|, suffix, chunk, None, 0);
      this.bucket := bucket;
      sent := [];
      new;
      assert archive[..|archive|] == archive;
    }

    /** `read`, paced by the bucket. */
    method ReadSome(size: int) returns (chunk: seq<Byte>)
      requires Valid() && size != 0
      modifies this, bucket
      ensures Valid() && Content(body) == old(Content(body)) && sent == old(sent) + chunk
      ensures chunk == [] <==> old(sent) == Content(body)
    {
      hide Read, NextSlice, Slice, Content;
      ReadRefines(body, size);
      NextPart(body, Read(body, size).1);
      var (next, bytes) := Read(body, size);
      chunk := bytes;
      if chunk != [] {
        ghost var rounds, asleep := bucket.Consume(|chunk|);
      }
      body := next;
      sent := sent + chunk;
    }

    /** `reset`: a retry sends the same bytes from the beginning. */
    method Rewind()
      requires Valid()
      modifies this
      ensures Valid() && Content(body) == old(Content(body)) && sent == []
    {
      body, sent := Reset(body), [];
    }

    /** What `http.client` does with a body: read until it answers nothing. */
    method Drain(size: int) returns (bytes: seq<Byte>)
      requires Valid() && size != 0 && sent == []
      modifies this, bucket
      ensures Valid() && bytes == Content(body) == old(Content(body))
    {
      bytes := [];
      while true
        invariant Valid() && Content(body) == old(Content(body)) && bytes == sent
                  && sent == Content(body)[..body.offset]
        decreases |Content(body)| - |sent|
      {
        var chunk := ReadSome(size);
        bytes := bytes + chunk;
        if chunk == [] {
          return;
        }
      }
    }
  }

  /******* The retry loop *******/

  /** How one attempt ends, as far as `_request` tells them apart. */
  datatype Answer =
    | Done
    | TooMany(retryAfter: Option<real>)
    | Unavailable
    | NetworkError
    | BodyRefused
    | OtherError

  /** `limited` is slept on 429s, `waited` on the rest, `retries` how often the rest was retried. */
  datatype Retry = Retry(attempt: nat, limited: real, waited: real, retries: nat)

  function Pow2(n: nat): nat {
    if n == 0 then 1 else 2 * Pow2(n - 1)
  }

  function Backoff(n: nat): real {
    0.5 * Pow2(n) as real
  }

  function Delay(retryAfter: Option<real>, attempt: nat): real {
    if retryAfter.Some? then retryAfter.value else Backoff(Upto(attempt, 6))
  }

  /** What one answer does to the loop: another attempt, or the end. */
  function Again(r: Retry, a: Answer, maxRetries: nat, rateLimitWait: real): Option<Retry> {
    match a
    case TooMany(retryAfter) =>
      var delay := Delay(retryAfter, r.attempt);
      if r.limited + delay <= rateLimitWait
      then Some(r.(attempt := r.attempt + 1, limited := r.limited + delay))
      else None
    case Unavailable =>
      if r.attempt < maxRetries
      then Some(r.(attempt := r.attempt + 1, waited := r.waited + Backoff(r.attempt), retries := r.retries + 1))
      else None
    case NetworkError =>
      if r.attempt < maxRetries
      then Some(r.(attempt := r.attempt + 1, waited := r.waited + Backoff(r.attempt), retries := r.retries + 1))
      else None
    case _ => None
  }

  const START := Retry(0, 0.0, 0.0, 0)

  /** The loop's state after these answers, while it goes on. */
  function After(answers: seq<Answer>, maxRetries: nat, rateLimitWait: real): Option<Retry> {
    if answers == [] then Some(START)
    else
      var before := After(answers[..|answers| - 1], maxRetries, rateLimitWait);
      if before.None? then None else Again(before.value, answers[|answers| - 1], maxRetries, rateLimitWait)
  }

  lemma OneMoreAnswer(answers: seq<Answer>, a: Answer, maxRetries: nat, rateLimitWait: real)
    requires After(answers, maxRetries, rateLimitWait).Some?
    ensures After(answers + [a], maxRetries, rateLimitWait)
            == Again(After(answers, maxRetries, rateLimitWait).value, a, maxRetries, rateLimitWait)
  {
    assert (answers + [a])[..|answers|] == answers;
  }

  /** `_retry_after_seconds` answers a number of at least 0, or none. */
  predicate Parsed(a: Answer) {
    a.TooMany? && a.retryAfter.Some? ==> a.retryAfter.value >= 0.0
  }

  lemma {:induction false} Pow2Monotone(m: nat, n: nat)
    requires m <= n
    ensures 1 <= Pow2(m) <= Pow2(n)
  {
    if m < n {
      Pow2Monotone(m, n - 1);
    } else if m > 0 {
      Pow2Monotone(m - 1, n - 1);
    }
  }

  predicate WithinBudget(r: Retry, maxRetries: nat, rateLimitWait: real) {
    && 0.0 <= r.limited <= rateLimitWait
    && r.retries <= Upto(r.attempt, maxRetries)
    && 0.0 <= r.waited <= 0.5 * (Pow2(Upto(r.attempt, maxRetries)) as real - 1.0)
  }

  lemma OneMoreAttempt(r: Retry, a: Answer, maxRetries: nat, rateLimitWait: real)
    requires WithinBudget(r, maxRetries, rateLimitWait) && Parsed(a)
    requires Again(r, a, maxRetries, rateLimitWait).Some?
    ensures WithinBudget(Again(r, a, maxRetries, rateLimitWait).value, maxRetries, rateLimitWait)
  {
    Pow2Monotone(Upto(r.attempt, maxRetries), Upto(r.attempt + 1, maxRetries));
    Pow2Monotone(0, Upto(r.attempt, 6));
    Pow2Monotone(0, r.attempt);
  }

  /**
   The two budgets: whatever the server answers, the loop has slept at most
   `rateLimitWait` on 429s and 0.5 * (2^maxRetries - 1) on everything else, retried
   the latter at most `maxRetries` times, and counts every answer as an attempt.
   */
  lemma {:induction false} RetryBudget(answers: seq<Answer>, maxRetries: nat, rateLimitWait: real)
    requires rateLimitWait >= 0.0 && forall i :: 0 <= i < |answers| ==> Parsed(answers[i])
    requires After(answers, maxRetries, rateLimitWait).Some?
    ensures var r := After(answers, maxRetries, rateLimitWait).value;
            && WithinBudget(r, maxRetries, rateLimitWait) && r.attempt == |answers|
            && r.retries <= maxRetries && r.waited <= 0.5 * (Pow2(maxRetries) as real - 1.0)
    decreases |answers|
  {
    if answers != [] {
      var n := |answers| - 1;
      RetryBudget(answers[..n], maxRetries, rateLimitWait);
      OneMoreAttempt(After(answers[..n], maxRetries, rateLimitWait).value, answers[n], maxRetries, rateLimitWait);
    }
    var r := After(answers, maxRetries, rateLimitWait).value;
    Pow2Monotone(Upto(r.attempt, maxRetries), maxRetries);
  }

  /**
   A 429 does spend a retry, whatever the comment on the loop says: after `n` answers
   of any kind a 5xx or network error is retried exactly when `n < maxRetries`.
   */
  lemma EveryAnswerSpendsARetry(answers: seq<Answer>, a: Answer, maxRetries: nat, rateLimitWait: real)
    requires rateLimitWait >= 0.0 && forall i :: 0 <= i < |answers| ==> Parsed(answers[i])
    requires After(answers, maxRetries, rateLimitWait).Some? && (a.Unavailable? || a.NetworkError?)
    ensures After(answers + [a], maxRetries, rateLimitWait).Some? <==> |answers| < maxRetries
  {
    RetryBudget(answers, maxRetries, rateLimitWait);
    OneMoreAnswer(answers, a, maxRetries, rateLimitWait);
  }

  /**
   What each answer does after `n` others: a 429 waits as long as it says, else
   0.5 * 2^min(n, 6), if that still fits its budget; a 5xx or a network error waits
   0.5 * 2^n while `n < maxRetries`; anything else is the end.
   */
  lemma AnswerDecides(answers: seq<Answer>, a: Answer, maxRetries: nat, rateLimitWait: real)
    requires rateLimitWait >= 0.0 && forall i :: 0 <= i < |answers| ==> Parsed(answers[i])
    requires After(answers, maxRetries, rateLimitWait).Some?
    ensures var n, r, next := |answers|, After(answers, maxRetries, rateLimitWait).value,
                              After(answers + [a], maxRetries, rateLimitWait);
            match a
            case TooMany(asked) =>
              var delay := if asked.Some? then asked.value else if n < 6 then 0.5 * Pow2(n) as real else 32.0;
              && (next.Some? <==> r.limited + delay <= rateLimitWait)
              && (next.Some? ==> next.value.limited == r.limited + delay && next.value.waited == r.waited)
            case Unavailable =>
              && (next.Some? <==> n < maxRetries)
              && (next.Some? ==>
                    next.value.waited == r.waited + 0.5 * Pow2(n) as real && next.value.limited == r.limited)
            case NetworkError =>
              && (next.Some? <==> n < maxRetries)
              && (next.Some? ==>
                    next.value.waited == r.waited + 0.5 * Pow2(n) as real && next.value.limited == r.limited)
            case _ => next.None?
  {
    RetryBudget(answers, maxRetries, rateLimitWait);
    OneMoreAnswer(answers, a, maxRetries, rateLimitWait);
    assert Pow2(6) == 64;
  }

  /** The bound on the sleep of the second budget is reached. */
  lemma {:induction false} BackoffsAddUp(n: nat, maxRetries: nat, rateLimitWait: real)
    requires n <= maxRetries && rateLimitWait >= 0.0
    ensures After(seq(n, _ => Unavailable), maxRetries, rateLimitWait)
            == Some(Retry(n, 0.0, 0.5 * (Pow2(n) as real - 1.0), n))
  {
    if n > 0 {
      assert seq(n, _ => Unavailable)[..n - 1] == seq(n - 1, _ => Unavailable);
      BackoffsAddUp(n - 1, maxRetries, rateLimitWait);
    }
  }

  lemma OnlyPassingGoOn(r: Retry, a: Answer, maxRetries: nat, rateLimitWait: real)
    requires Again(r, a, maxRetries, rateLimitWait).Some?
    ensures a.TooMany? || a.Unavailable? || a.NetworkError?
  {
  }

  /** With `Retry-After: 0` for ever the loop never ends: no bound on the delays, no termination. */
  lemma {:induction false} ZeroDelaysNeverEnd(n: nat, maxRetries: nat, rateLimitWait: real)
    requires rateLimitWait >= 0.0
    ensures After(seq(n, _ => TooMany(Some(0.0))), maxRetries, rateLimitWait) == Some(Retry(n, 0.0, 0.0, 0))
  {
    if n > 0 {
      assert seq(n, _ => TooMany(Some(0.0)))[..n - 1] == seq(n - 1, _ => TooMany(Some(0.0)));
      ZeroDelaysNeverEnd(n - 1, maxRetries, rateLimitWait);
    }
  }

  /** Every delay the server asks for has the lower bound `least`. */
  predicate AtLeast(a: Answer, least: real) {
    a.TooMany? && a.retryAfter.Some? ==> a.retryAfter.value >= least
  }

  /** How many attempts are left at most, when 429s wait at least `least`. */
  function Left(r: Retry, maxRetries: nat, rateLimitWait: real, least: real): int
    requires least > 0.0
  {
    ((rateLimitWait - r.limited) / least).Floor + if r.attempt < maxRetries then maxRetries - r.attempt else 0
  }

  lemma LeftShrinks(r: Retry, a: Answer, maxRetries: nat, rateLimitWait: real, least: real)
    requires 0.0 < least <= 0.5 && AtLeast(a, least) && r.limited <= rateLimitWait
    requires Again(r, a, maxRetries, rateLimitWait).Some?
    ensures var r' := Again(r, a, maxRetries, rateLimitWait).value;
            0 <= Left(r', maxRetries, rateLimitWait, least) < Left(r, maxRetries, rateLimitWait, least)
  {
    var r' := Again(r, a, maxRetries, rateLimitWait).value;
    QuotientNotNegative(rateLimitWait - r'.limited, least);
    if a.TooMany? {
      Pow2Monotone(0, Upto(r.attempt, 6));
      QuotientDrops(rateLimitWait - r.limited, Delay(a.retryAfter, r.attempt), least);
    }
  }

  lemma QuotientNotNegative(x: real, least: real)
    requires x >= 0.0 && least > 0.0
    ensures (x / least).Floor >= 0
  {
  }

  lemma QuotientDrops(x: real, d: real, least: real)
    requires d >= least > 0.0
    ensures ((x - d) / least).Floor < (x / least).Floor
  {
    assert (x - d) / least == x / least - d / least;
    assert d / least >= 1.0;
  }

  /** The sending half of an attempt: from the beginning, all of it, or until the connection breaks after some reads. */
  method Send(body: ThrottledBody, size: int, breaks: Option<nat>) returns (bytes: seq<Byte>)
    requires body.Valid() && size != 0
    modifies body, body.bucket
    ensures body.Valid() && Content(body.body) == old(Content(body.body)) && bytes <= Content(body.body)
    ensures breaks.None? ==> bytes == Content(body.body)
  {
    body.Rewind();
    if breaks.None? {
      bytes := body.Drain(size);
      return;
    }
    bytes := [];
    for k := 0 to breaks.value
      invariant body.Valid() && Content(body.body) == old(Content(body.body)) && bytes == body.sent
    {
      var chunk := body.ReadSome(size);
      bytes := bytes + chunk;
    }
  }

  /**
   `_request` with an archive: the attempts it makes, the last of them final. Every
   attempt sends the same content from its beginning, all of it unless the connection
   breaks; and the loop terminates whenever the delays the server asks for have a
   positive lower bound.
   */
  method Request(body: ThrottledBody, size: int, breaks: nat -> Option<nat>, answers: nat -> Answer,
                 maxRetries: nat, rateLimitWait: real, ghost least: real)
    returns (sent: seq<Answer>, bodies: seq<seq<Byte>>, r: Retry)
    requires body.Valid() && size != 0 && rateLimitWait >= 0.0 && 0.0 < least <= 0.5
    requires forall i :: AtLeast(answers(i), least)
    modifies body, body.bucket
    ensures |sent| > 0 && forall i :: 0 <= i < |sent| ==> sent[i] == answers(i)
    ensures |bodies| == |sent| && forall i :: 0 <= i < |bodies| ==>
              bodies[i] <= old(Content(body.body)) && (breaks(i).None? ==> bodies[i] == old(Content(body.body)))
    ensures forall i :: 0 <= i < |sent| - 1 ==> sent[i].TooMany? || sent[i].Unavailable? || sent[i].NetworkError?
    ensures forall i :: 0 <= i < |sent| && (sent[i].Done? || sent[i].BodyRefused? || sent[i].OtherError?) ==>
              i == |sent| - 1
    ensures After(sent, maxRetries, rateLimitWait).None?
    ensures After(sent[..|sent| - 1], maxRetries, rateLimitWait) == Some(r)
    ensures r.limited <= rateLimitWait && r.waited <= 0.5 * (Pow2(maxRetries) as real - 1.0) && r.retries <= maxRetries
    ensures |sent| <= Left(START, maxRetries, rateLimitWait, least) + 1
  {
    hide Left, WithinBudget, Pow2, After, Again, Content, InStep;
    sent, bodies, r := [], [], START;
    NoAnswerYet(maxRetries, rateLimitWait);
    QuotientNotNegativeAtStart(maxRetries, rateLimitWait, least);
    while true
      invariant body.Valid() && Content(body.body) == old(Content(body.body)) && |bodies| == |sent|
      invariant forall i :: 0 <= i < |bodies| ==>
                  bodies[i] <= old(Content(body.body)) && (breaks(i).None? ==> bodies[i] == old(Content(body.body)))
      invariant |sent| + Left(r, maxRetries, rateLimitWait, least) <= Left(START, maxRetries, rateLimitWait, least)
      invariant forall i :: 0 <= i < |sent| ==> sent[i] == answers(i)
      invariant forall i :: 0 <= i < |sent| ==> sent[i].TooMany? || sent[i].Unavailable? || sent[i].NetworkError?
      invariant After(sent, maxRetries, rateLimitWait) == Some(r)
      invariant r.limited <= rateLimitWait && Left(r, maxRetries, rateLimitWait, least) >= 0
      decreases Left(r, maxRetries, rateLimitWait, least)
    {
      var bytes := Send(body, size, breaks(|sent|));
      bodies := bodies + [bytes];
      var a := answers(|sent|);
      OneMoreAnswer(sent, a, maxRetries, rateLimitWait);
      var next := Again(r, a, maxRetries, rateLimitWait);
      if next.None? {
        RetryBudget(sent, maxRetries, rateLimitWait);
        assert (sent + [a])[..|sent|] == sent;
        sent := sent + [a];
        return;
      }
      OnlyPassingGoOn(r, a, maxRetries, rateLimitWait);
      LeftShrinks(r, a, maxRetries, rateLimitWait, least);
      StaysWithin(r, a, maxRetries, rateLimitWait);
      sent, r := sent + [a], next.value;
    }
  }

  lemma NoAnswerYet(maxRetries: nat, rateLimitWait: real)
    ensures After([], maxRetries, rateLimitWait) == Some(START)
  {
  }

  lemma StaysWithin(r: Retry, a: Answer, maxRetries: nat, rateLimitWait: real)
    requires r.limited <= rateLimitWait && Again(r, a, maxRetries, rateLimitWait).Some?
    ensures Again(r, a, maxRetries, rateLimitWait).value.limited <= rateLimitWait
  {
  }

  lemma QuotientNotNegativeAtStart(maxRetries: nat, rateLimitWait: real, least: real)
    requires rateLimitWait >= 0.0 && least > 0.0
    ensures Left(START, maxRetries, rateLimitWait, least) >= 0
  {
    QuotientNotNegative(rateLimitWait, least);
  }
}
