/** Where one HTTP request ends and the next begins, however the bytes arrive
    (src/server/http_server.cpp; sections 6.2 and 9.3.2 of RFC 9112). */
module Http {
  import opened Text

  /** What the head of a request says about its body, or the error it is refused with. */
  datatype Framing = Length(n: nat) | Refused(code: nat)

  type HeadParser = string -> Framing

  /** Whether the connection goes on after the request with this head. */
  type Decision = string -> bool

  const MAX_CHUNK := 8192

  // ---------------------------------------------------------------- the end of the head

  predicate EndsAt(s: string, k: nat) {
    k + 4 <= |s| && s[k] == '\r' && s[k + 1] == '\n' && s[k + 2] == '\r' && s[k + 3] == '\n'
  }

  /** The first empty line from `k` on. */
  function HeadEnd(s: string, k: nat): (r: Option<nat>)
    ensures r.Some? ==> k <= r.value && EndsAt(s, r.value)
    decreases |s| - k
  {
    if k + 4 > |s| then None else if EndsAt(s, k) then Some(k) else HeadEnd(s, k + 1)
  }

  /** A prefix shows the end of the head exactly if it reaches that far. */
  lemma {:induction false} PrefixHeadEnd(s: string, n: nat, k: nat)
    requires n <= |s|
    ensures HeadEnd(s[..n], k) == var r := HeadEnd(s, k); if r.Some? && r.value + 4 <= n then r else None
    decreases |s| - k
  {
    if k + 4 <= n {
      assert EndsAt(s[..n], k) <==> EndsAt(s, k);
      PrefixHeadEnd(s, n, k + 1);
    }
  }

  // ---------------------------------------------------------------- what a stream of bytes means

  datatype Next =
    | Request(head: string, body: string, used: nat)
    | Error(code: nat)
    /** The bytes end inside the head or the body. */
    | CutOff(inBody: bool)

  /** The request at the beginning of `rest`, which is all that will ever arrive. */
  function NextRequest(rest: string, parse: HeadParser, maxBody: nat): (r: Next)
    ensures r.Request? ==> 4 <= r.used <= |rest|
  {
    var end := HeadEnd(rest, 0);
    if end.None? then CutOff(false) else
    var head, from := rest[..end.value + 2], end.value + 4;
    match parse(head)
    case Refused(code) => Error(code)
    case Length(n) =>
      if n > maxBody then Error(413)
      else if from + n > |rest| then CutOff(true)
      else Request(head, rest[from..from + n], from + n)
  }

  /** The head is short enough never to be refused for its size, however its bytes are split. */
  predicate HeadFits(rest: string, maxHeader: nat) {
    var end := HeadEnd(rest, 0);
    if end.Some? then end.value + 3 <= maxHeader else |rest| <= maxHeader
  }

  predicate AllFit(rest: string, parse: HeadParser, keeps: Decision, maxBody: nat, maxHeader: nat)
    decreases |rest|
  {
    && HeadFits(rest, maxHeader)
    && var next := NextRequest(rest, parse, maxBody);
       next.Request? && keeps(next.head) ==> AllFit(rest[next.used..], parse, keeps, maxBody, maxHeader)
  }

  type Exchange = (string, string)

  /** The heads and bodies of the requests in `rest`, up to the first that ends the connection. */
  function Requests(rest: string, parse: HeadParser, keeps: Decision, maxBody: nat): seq<Exchange>
    decreases |rest|
  {
    var next := NextRequest(rest, parse, maxBody);
    if next.Request? then
      [(next.head, next.body)] + if keeps(next.head) then Requests(rest[next.used..], parse, keeps, maxBody) else []
    else []
  }

  /** The error that a request cannot be read for; 0 closes the connection without an answer. */
  function FailureCode(rest: string, parse: HeadParser, maxBody: nat, silent: bool): nat {
    match NextRequest(rest, parse, maxBody)
    case Request(_, _, _) => 0
    case Error(code) => code
    case CutOff(inBody) => if inBody then (if silent then 408 else 400) else if silent && rest != "" then 408 else 0
  }

  /** How the connection ends: with the error of the first request that cannot be read, or with 0. */
  function EndCode(rest: string, parse: HeadParser, keeps: Decision, maxBody: nat, silent: bool): nat
    decreases |rest|
  {
    var next := NextRequest(rest, parse, maxBody);
    if next.Request? then
      if keeps(next.head) then EndCode(rest[next.used..], parse, keeps, maxBody, silent) else 0
    else FailureCode(rest, parse, maxBody, silent)
  }

  // ---------------------------------------------------------------- pipelined requests

  /** Requests one behind the other; the head ends with the line break of its last line, and an
      empty line follows. */
  function Pipelined(es: seq<Exchange>, k: nat): string
    requires k <= |es|
    decreases |es| - k
  {
    if k == |es| then "" else (es[k].0 + "\r\n") + (es[k].1 + Pipelined(es, k + 1))
  }

  /** The head has no empty line before its end, and announces the body. */
  predicate WellFormed(e: Exchange, parse: HeadParser, maxBody: nat) {
    |e.0| >= 2 && HeadEnd(e.0 + "\r\n", 0) == Some(|e.0| - 2) && parse(e.0) == Length(|e.1|) && |e.1| <= maxBody
  }

  lemma {:induction false} FirstRequest(e: Exchange, more: string, parse: HeadParser, maxBody: nat)
    requires WellFormed(e, parse, maxBody)
    ensures var rest := (e.0 + "\r\n") + (e.1 + more);
            && HeadEnd(rest, 0) == Some(|e.0| - 2)
            && NextRequest(rest, parse, maxBody) == Request(e.0, e.1, |e.0| + 2 + |e.1|)
            && rest[|e.0| + 2 + |e.1|..] == more
  {
    var lines := e.0 + "\r\n";
    var rest := lines + (e.1 + more);
    assert rest[..|lines|] == lines;
    PrefixHeadEnd(rest, |lines|, 0);
    assert HeadEnd(rest, 0) == Some(|e.0| - 2) by { EndGrows(rest, |lines|, 0); }
    assert rest[..|e.0|] == e.0;
    assert rest[|e.0| + 2..|e.0| + 2 + |e.1|] == e.1;
  }

  lemma {:induction false} EndGrows(s: string, n: nat, k: nat)
    requires n <= |s| && HeadEnd(s[..n], k).Some?
    ensures HeadEnd(s, k) == HeadEnd(s[..n], k)
  {
    PrefixHeadEnd(s, n, k);
  }

  lemma {:induction false} RequestsStep(rest: string, e: Exchange, used: nat, more: string, parse: HeadParser, keeps: Decision,
                                        maxBody: nat, maxHeader: nat)
    requires NextRequest(rest, parse, maxBody) == Request(e.0, e.1, used) && used <= |rest| && rest[used..] == more
    ensures Requests(rest, parse, keeps, maxBody) == [e] + if keeps(e.0) then Requests(more, parse, keeps, maxBody) else []
    ensures HeadFits(rest, maxHeader) && AllFit(more, parse, keeps, maxBody, maxHeader) ==>
              AllFit(rest, parse, keeps, maxBody, maxHeader)
  {
  }

  /** The requests from `k` on, up to the first that ends the connection. */
  function Kept(es: seq<Exchange>, k: nat, keeps: Decision): seq<Exchange>
    requires k <= |es|
    decreases |es| - k
  {
    if k == |es| then [] else [es[k]] + if keeps(es[k].0) then Kept(es, k + 1, keeps) else []
  }

  lemma {:induction false} OneRequest(e: Exchange, more: string, parse: HeadParser, keeps: Decision, maxBody: nat, maxHeader: nat)
    requires WellFormed(e, parse, maxBody) && |e.0| + 1 <= maxHeader && AllFit(more, parse, keeps, maxBody, maxHeader)
    ensures var rest := (e.0 + "\r\n") + (e.1 + more);
            && Requests(rest, parse, keeps, maxBody) == [e] + (if keeps(e.0) then Requests(more, parse, keeps, maxBody) else [])
            && AllFit(rest, parse, keeps, maxBody, maxHeader)
  {
    FirstRequest(e, more, parse, maxBody);
    RequestsStep((e.0 + "\r\n") + (e.1 + more), e, |e.0| + 2 + |e.1|, more, parse, keeps, maxBody, maxHeader);
  }

  /** Well-formed requests are told apart exactly as they were put together. */
  lemma {:induction false} PipelineReadBack(es: seq<Exchange>, k: nat, parse: HeadParser, keeps: Decision, maxBody: nat,
                                            maxHeader: nat)
    requires k <= |es| && forall j :: 0 <= j < |es| ==> WellFormed(es[j], parse, maxBody) && |es[j].0| + 1 <= maxHeader
    ensures Requests(Pipelined(es, k), parse, keeps, maxBody) == Kept(es, k, keeps)
    ensures AllFit(Pipelined(es, k), parse, keeps, maxBody, maxHeader)
    decreases |es| - k
  {
    if k < |es| {
      PipelineReadBack(es, k + 1, parse, keeps, maxBody, maxHeader);
      OneRequest(es[k], Pipelined(es, k + 1), parse, keeps, maxBody, maxHeader);
    }
  }

  // ---------------------------------------------------------------- how bytes arrive

  /** What successive reads return: never nothing, and at most a buffer full. */
  predicate Chunked(chunks: seq<string>) {
    forall i :: 0 <= i < |chunks| ==> 1 <= |chunks[i]| <= MAX_CHUNK
  }

  /** The bytes that are still to arrive before the read number `c`. */
  function Remaining(chunks: seq<string>, c: nat): string
    requires c <= |chunks|
    decreases |chunks| - c
  {
    if c == |chunks| then "" else chunks[c] + Remaining(chunks, c + 1)
  }

  datatype HeadRead = Found(buffer: string, c: nat) | TooLarge | Ended(buffer: string)

  /** The loop that reads up to the end of the head. */
  function ReadHead(chunks: seq<string>, c: nat, buffer: string, maxHeader: nat): (r: HeadRead)
    requires c <= |chunks|
    ensures r.Found? ==> c <= r.c <= |chunks| && HeadEnd(r.buffer, 0).Some?
    decreases |chunks| - c
  {
    if HeadEnd(buffer, 0).Some? then Found(buffer, c)
    else if c == |chunks| then Ended(buffer)
    else
      var b := buffer + chunks[c];
      if HeadEnd(b, 0).None? && |b| > maxHeader then TooLarge else ReadHead(chunks, c + 1, b, maxHeader)
  }

  lemma {:induction false} OneRead(chunks: seq<string>, c: nat, buffer: string)
    requires c < |chunks|
    ensures buffer + Remaining(chunks, c) == (buffer + chunks[c]) + Remaining(chunks, c + 1)
  {
  }

  lemma {:induction false} Shows(s: string, buffer: string, more: string)
    requires s == buffer + more
    ensures HeadEnd(buffer, 0) == var r := HeadEnd(s, 0); if r.Some? && r.value + 4 <= |buffer| then r else None
  {
    assert s[..|buffer|] == buffer;
    PrefixHeadEnd(s, |buffer|, 0);
  }

  /** A head that fits is found under every splitting, and no byte is lost. */
  lemma {:induction false} ReadHeadFits(chunks: seq<string>, c: nat, buffer: string, maxHeader: nat, rest: string)
    requires c <= |chunks| && rest == buffer + Remaining(chunks, c) && HeadFits(rest, maxHeader)
    ensures var r := ReadHead(chunks, c, buffer, maxHeader);
            if HeadEnd(rest, 0).Some? then
              r.Found? && r.buffer + Remaining(chunks, r.c) == rest && HeadEnd(r.buffer, 0) == HeadEnd(rest, 0)
            else r == Ended(rest)
    decreases |chunks| - c
  {
    Shows(rest, buffer, Remaining(chunks, c));
    if HeadEnd(buffer, 0).None? && c < |chunks| {
      OneRead(chunks, c, buffer);
      Shows(rest, buffer + chunks[c], Remaining(chunks, c + 1));
      ReadHeadFits(chunks, c + 1, buffer + chunks[c], maxHeader, rest);
    }
  }

  datatype BodyRead = Full(body: string, c: nat) | Short

  /** The loop that reads up to the end of the body. */
  function ReadBody(chunks: seq<string>, c: nat, body: string, n: nat): (r: BodyRead)
    requires c <= |chunks|
    ensures r.Full? ==> c <= r.c <= |chunks| && |r.body| >= n
    decreases |chunks| - c
  {
    if |body| >= n then Full(body, c)
    else if c == |chunks| then Short
    else ReadBody(chunks, c + 1, body + chunks[c], n)
  }

  lemma {:induction false} ReadBodyFinds(chunks: seq<string>, c: nat, body: string, n: nat, rest: string)
    requires c <= |chunks| && rest == body + Remaining(chunks, c)
    ensures var r := ReadBody(chunks, c, body, n);
            if n <= |rest| then r.Full? && r.body + Remaining(chunks, r.c) == rest else r == Short
    decreases |chunks| - c
  {
    if |body| < n && c < |chunks| {
      OneRead(chunks, c, body);
      ReadBodyFinds(chunks, c + 1, body + chunks[c], n, rest);
    }
  }

  // ---------------------------------------------------------------- the limit on heads, exactly

  /** The bytes one by one. */
  function Singles(s: string): (r: seq<string>)
    ensures |r| == |s| && forall i :: 0 <= i < |s| ==> r[i] == [s[i]]
  {
    seq(|s|, i requires 0 <= i < |s| => [s[i]])
  }

  lemma {:induction false} SinglesRemain(s: string, c: nat)
    requires c <= |s|
    ensures Remaining(Singles(s), c) == s[c..]
    decreases |s| - c
  {
    if c < |s| { SinglesRemain(s, c + 1); }
  }

  lemma {:induction false} RemainingJoin(a: seq<string>, b: seq<string>, c: nat)
    requires c <= |a|
    ensures Remaining(a + b, c) == Remaining(a, c) + Remaining(b, 0)
    decreases |a| - c
  {
    if c == |a| {
      RemainingBehind(a, b, 0);
    } else {
      RemainingJoin(a, b, c + 1);
      var all := a + b;
      assert Remaining(all, c) == a[c] + Remaining(all, c + 1);
      Associate(a[c], Remaining(a, c + 1), Remaining(b, 0));
    }
  }

  lemma {:induction false} RemainingBehind(a: seq<string>, b: seq<string>, c: nat)
    requires c <= |b|
    ensures Remaining(a + b, |a| + c) == Remaining(b, c)
    decreases |b| - c
  {
    if c < |b| {
      assert (a + b)[|a| + c] == b[c];
      RemainingBehind(a, b, c + 1);
    }
  }

  /** Byte by byte the limit is always noticed. */
  lemma {:induction false} ByteByByte(s: string, n: nat, c: nat, maxHeader: nat, k: nat)
    requires HeadEnd(s, 0) == Some(k) && k + 3 > maxHeader && n + c < k + 3
    ensures ReadHead(Singles(s[n..]), c, s[..n + c], maxHeader) == TooLarge
    decreases k + 4 - c
  {
    PrefixHeadEnd(s, n + c, 0);
    PrefixHeadEnd(s, n + c + 1, 0);
    assert s[..n + c] + Singles(s[n..])[c] == s[..n + c + 1];
    if n + c < maxHeader { ByteByByte(s, n, c + 1, maxHeader, k); }
  }

  /** Single bytes up to `from`, then the end of the head in one read, then single bytes again. */
  function LateBurst(s: string, n: nat, from: nat, size: nat): seq<string>
    requires n <= from <= size <= |s|
  {
    Singles(s[n..from]) + ([s[from..size]] + Singles(s[size..]))
  }

  lemma {:induction false} BurstFound(s: string, n: nat, m: nat, from: nat, maxHeader: nat, k: nat)
    requires HeadEnd(s, 0) == Some(k) && n <= m <= from < k + 3 && (from == n || from <= maxHeader)
    ensures ReadHead(LateBurst(s, n, from, k + 4), m - n, s[..m], maxHeader).Found?
    decreases from - m
  {
    var next := if m < from then m + 1 else k + 4;
    PrefixHeadEnd(s, m, 0);
    PrefixHeadEnd(s, next, 0);
    BurstChunk(s, n, m, from, k + 4);
    OneMore(LateBurst(s, n, from, k + 4), m - n, s[..m], maxHeader, s[..next]);
    if m < from { BurstFound(s, n, m + 1, from, maxHeader, k); }
  }

  lemma {:induction false} OneMore(chunks: seq<string>, c: nat, buffer: string, maxHeader: nat, b: string)
    requires c < |chunks| && HeadEnd(buffer, 0).None? && b == buffer + chunks[c]
    ensures HeadEnd(b, 0).Some? ==> ReadHead(chunks, c, buffer, maxHeader).Found?
    ensures |b| <= maxHeader ==> ReadHead(chunks, c, buffer, maxHeader) == ReadHead(chunks, c + 1, b, maxHeader)
  {
  }

  lemma {:induction false} BurstChunk(s: string, n: nat, m: nat, from: nat, size: nat)
    requires n <= m <= from < size <= |s|
    ensures var chunks := LateBurst(s, n, from, size);
            m - n < |chunks| && s[..m] + chunks[m - n] == s[..if m < from then m + 1 else size]
  {
    var chunks := LateBurst(s, n, from, size);
    if m < from {
      assert chunks[m - n] == [s[n..from][m - n]];
    } else {
      assert chunks[m - n] == s[from..size];
    }
  }

  lemma {:induction false} BurstRemains(s: string, n: nat, from: nat, size: nat)
    requires n <= from <= size <= |s|
    ensures Remaining(LateBurst(s, n, from, size), 0) == s[n..]
  {
    var a, b, c := Singles(s[n..from]), [s[from..size]], Singles(s[size..]);
    RemainingJoin(a, b + c, 0);
    RemainingJoin(b, c, 0);
    SinglesRemain(s[n..from], 0);
    SinglesRemain(s[size..], 0);
    assert Remaining(b, 0) == s[from..size];
    assert s[n..] == s[n..from] + (s[from..size] + s[size..]);
  }

  lemma {:induction false} AlwaysTooLarge(chunks: seq<string>, c: nat, buffer: string, from: nat, maxHeader: nat, s: string, k: nat)
    requires Chunked(chunks) && c <= |chunks| && s == buffer + Remaining(chunks, c)
    requires HeadEnd(s, 0) == Some(k) && k + 4 > from + MAX_CHUNK && |buffer| <= from && maxHeader <= from
    ensures ReadHead(chunks, c, buffer, maxHeader) == TooLarge
    decreases |chunks| - c
  {
    Shows(s, buffer, Remaining(chunks, c));
    if c < |chunks| {
      OneRead(chunks, c, buffer);
      Shows(s, buffer + chunks[c], Remaining(chunks, c + 1));
      if |buffer + chunks[c]| <= maxHeader { AlwaysTooLarge(chunks, c + 1, buffer + chunks[c], from, maxHeader, s, k); }
    }
  }

  lemma {:induction false} NearlyThere(chunks: seq<string>, buffer: string, maxHeader: nat, s: string, k: nat)
    requires Chunked(chunks) && s == buffer + Remaining(chunks, 0) && HeadEnd(s, 0) == Some(k) && k + 3 <= |buffer|
    ensures ReadHead(chunks, 0, buffer, maxHeader).Found?
  {
    Shows(s, buffer, Remaining(chunks, 0));
    if HeadEnd(buffer, 0).None? {
      OneRead(chunks, 0, buffer);
      Shows(s, buffer + chunks[0], Remaining(chunks, 1));
    }
  }

  /** The reads that bring the bytes of `s` behind those in `buffer`. */
  predicate Brings(chunks: seq<string>, buffer: string, s: string) {
    Chunked(chunks) && buffer + Remaining(chunks, 0) == s
  }

  /** Up to this many bytes may have arrived without the end of the head. */
  function Allowed(buffer: string, maxHeader: nat): nat {
    if |buffer| > maxHeader then |buffer| else maxHeader
  }

  /** With the bytes in `buffer` left over and any bytes behind the head, a head that ends at `k` is
      accepted under every splitting exactly if all but the last byte of its end are allowed to
      arrive without it, and refused under every splitting exactly if it ends more than one whole read
      beyond that; in between it depends on the splitting. */
  lemma {:induction false} HeadLimit(buffer: string, s: string, maxHeader: nat, k: nat)
    requires HeadEnd(s, 0) == Some(k) && buffer <= s
    ensures var from := Allowed(buffer, maxHeader);
            && (k + 3 <= from ==> forall a :: Brings(a, buffer, s) ==> ReadHead(a, 0, buffer, maxHeader).Found?)
            && (k + 4 > from + MAX_CHUNK ==> forall a :: Brings(a, buffer, s) ==> ReadHead(a, 0, buffer, maxHeader).TooLarge?)
            && (from < k + 3 && k + 4 <= from + MAX_CHUNK ==>
                  exists a, b :: && Brings(a, buffer, s) && ReadHead(a, 0, buffer, maxHeader).TooLarge?
                                 && Brings(b, buffer, s) && ReadHead(b, 0, buffer, maxHeader).Found?)
  {
    var from := Allowed(buffer, maxHeader);
    if k + 3 <= from {
      forall a | Brings(a, buffer, s) ensures ReadHead(a, 0, buffer, maxHeader).Found? {
        if k + 3 <= maxHeader { ReadHeadFits(a, 0, buffer, maxHeader, s); } else { NearlyThere(a, buffer, maxHeader, s, k); }
      }
    } else if k + 4 > from + MAX_CHUNK {
      forall a | Brings(a, buffer, s) ensures ReadHead(a, 0, buffer, maxHeader).TooLarge? {
        AlwaysTooLarge(a, 0, buffer, from, maxHeader, s, k);
      }
    } else {
      BothWays(buffer, s, maxHeader, k);
    }
  }

  lemma {:induction false} BothWays(buffer: string, s: string, maxHeader: nat, k: nat)
    requires HeadEnd(s, 0) == Some(k) && buffer <= s
    requires var from := Allowed(buffer, maxHeader); from < k + 3 && k + 4 <= from + MAX_CHUNK
    ensures exists a, b :: && Brings(a, buffer, s) && ReadHead(a, 0, buffer, maxHeader).TooLarge?
                           && Brings(b, buffer, s) && ReadHead(b, 0, buffer, maxHeader).Found?
  {
    var a := RefusedWay(buffer, s, maxHeader, k);
    assert s[..|buffer|] == buffer;
    var b := AcceptedWay(s, |buffer|, Allowed(buffer, maxHeader), maxHeader, k);
  }

  lemma {:induction false} RefusedWay(buffer: string, s: string, maxHeader: nat, k: nat) returns (a: seq<string>)
    requires HeadEnd(s, 0) == Some(k) && buffer <= s && Allowed(buffer, maxHeader) < k + 3
    ensures Brings(a, buffer, s) && ReadHead(a, 0, buffer, maxHeader).TooLarge?
  {
    var n := |buffer|;
    a := Singles(s[n..]);
    assert s[..n + 0] == buffer && buffer + s[n..] == s;
    ByteByByte(s, n, 0, maxHeader, k);
    SinglesRemain(s[n..], 0);
  }

  lemma {:induction false} AcceptedWay(s: string, n: nat, from: nat, maxHeader: nat, k: nat) returns (b: seq<string>)
    requires HeadEnd(s, 0) == Some(k) && n <= from < k + 3 && k + 4 <= from + MAX_CHUNK && (from == n || from <= maxHeader)
    ensures Brings(b, s[..n], s) && ReadHead(b, 0, s[..n], maxHeader).Found?
  {
    b := LateBurst(s, n, from, k + 4);
    BurstFound(s, n, n, from, maxHeader, k);
    BurstBrings(s, n, from, k + 4);
  }

  lemma {:induction false} BurstBrings(s: string, n: nat, from: nat, size: nat)
    requires n <= from < size <= |s| && size <= from + MAX_CHUNK
    ensures Brings(LateBurst(s, n, from, size), s[..n], s)
  {
    BurstRemains(s, n, from, size);
    assert s[..n] + s[n..] == s;
  }
}
