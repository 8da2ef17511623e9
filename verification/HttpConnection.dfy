/** The reading of requests from one connection (src/server/http_server.cpp). */
module HttpConnection {
  import opened Text
  import opened Http

  /** A failed read: code 0 closes the connection without an answer. */
  datatype Read = Got(head: string, body: string) | Failed(code: nat)

  lemma {:induction false} ServedMore(served: seq<Exchange>, rest: string, e: Exchange, used: nat, parse: HeadParser,
                                      keeps: Decision, maxBody: nat, silent: bool)
    requires NextRequest(rest, parse, maxBody) == Request(e.0, e.1, used) && used <= |rest|
    ensures served + Requests(rest, parse, keeps, maxBody)
         == (served + [e]) + if keeps(e.0) then Requests(rest[used..], parse, keeps, maxBody) else []
    ensures EndCode(rest, parse, keeps, maxBody, silent)
         == if keeps(e.0) then EndCode(rest[used..], parse, keeps, maxBody, silent) else 0
  {
    var more := if keeps(e.0) then Requests(rest[used..], parse, keeps, maxBody) else [];
    assert served + ([e] + more) == (served + [e]) + more;
  }

  /** `chunks` are the reads that the peer's bytes will give, in order; after them the peer either
      has closed or stays silent until the timeout. */
  class Connection {
    const chunks: seq<string>
    const silent: bool
    const maxHeader: nat
    const maxBody: nat
    const parse: HeadParser
    const keeps: Decision
    var c: nat
    var buffer: string
    /** The bytes of the requests already answered. */
    ghost var consumed: string

    /** Every byte that has arrived is consumed or left over, and none is lost or moved. */
    ghost predicate Valid()
      reads this
    {
      && c <= |chunks| && Chunked(chunks)
      && Remaining(chunks, 0) == consumed + Rest()
    }

    /** All bytes from the next request on. */
    ghost function Rest(): string
      reads this
      requires c <= |chunks|
    {
      buffer + Remaining(chunks, c)
    }

    constructor (chunks: seq<string>, silent: bool, maxHeader: nat, maxBody: nat, parse: HeadParser, keeps: Decision)
      requires Chunked(chunks)
      ensures Valid() && this.chunks == chunks && this.silent == silent && this.parse == parse && this.keeps == keeps
      ensures this.maxHeader == maxHeader && this.maxBody == maxBody
      ensures Rest() == Remaining(chunks, 0) && consumed == ""
    {
      this.chunks, this.silent, this.parse, this.keeps := chunks, silent, parse, keeps;
      this.maxHeader, this.maxBody := maxHeader, maxBody;
      c, buffer, consumed := 0, "", "";
    }

    method FindHeadEnd(s: string) returns (end: Option<nat>)
      ensures end == HeadEnd(s, 0)
    {
      var k := 0;
      while k + 4 <= |s|
        invariant HeadEnd(s, k) == HeadEnd(s, 0)
        decreases |s| - k
      {
        if EndsAt(s, k) { return Some(k); }
        k := k + 1;
      }
      end := None;
    }

    /** The loop over the head; a result is the error code. */
    method FillHead() returns (failure: Option<nat>, end: nat)
      requires c <= |chunks|
      modifies this`c, this`buffer
      ensures match ReadHead(chunks, old(c), old(buffer), maxHeader)
              case Found(b, d) => failure == None && buffer == b && c == d && HeadEnd(b, 0) == Some(end)
              case TooLarge => failure == Some(431)
              case Ended(b) => failure == Some(if silent && b != "" then 408 else 0)
    {
      end := 0;
      var found := FindHeadEnd(buffer);
      while found == None
        invariant c <= |chunks| && found == HeadEnd(buffer, 0)
        invariant ReadHead(chunks, c, buffer, maxHeader) == ReadHead(chunks, old(c), old(buffer), maxHeader)
        decreases |chunks| - c
      {
        if c == |chunks| {
          failure := Some(if silent && buffer != "" then 408 else 0);
          return;
        }
        buffer, c := buffer + chunks[c], c + 1;
        found := FindHeadEnd(buffer);
        if found == None && |buffer| > maxHeader {
          failure := Some(431);
          return;
        }
      }
      failure, end := None, found.value;
    }

    /** The loop over the body. */
    method FillBody(rest: string, n: nat) returns (body: Option<string>)
      requires c <= |chunks|
      modifies this`c
      ensures match ReadBody(chunks, old(c), rest, n)
              case Full(b, d) => body == Some(b) && c == d
              case Short => body == None
    {
      var b := rest;
      while |b| < n
        invariant c <= |chunks| && ReadBody(chunks, c, b, n) == ReadBody(chunks, old(c), rest, n)
        decreases |chunks| - c
      {
        if c == |chunks| { return None; }
        b, c := b + chunks[c], c + 1;
      }
      body := Some(b);
    }

    /** What `readRequest` must answer, given all bytes that will ever arrive. */
    ghost function Answer(rest: string): Read {
      match NextRequest(rest, parse, maxBody)
      case Request(head, body, _) => Got(head, body)
      case _ => Failed(FailureCode(rest, parse, maxBody, silent))
    }

    /** The answer depends on the bytes alone, not on how the reads split them. */
    method ReadRequest() returns (r: Read)
      requires Valid() && HeadFits(Rest(), maxHeader)
      modifies this`c, this`buffer, this`consumed
      ensures r == Answer(old(Rest()))
      ensures r.Got? ==> Valid() && consumed == old(consumed) + old(Rest())[..NextRequest(old(Rest()), parse, maxBody).used]
      ensures r.Got? ==> Rest() == old(Rest())[NextRequest(old(Rest()), parse, maxBody).used..]
    {
      hide HeadFits, HeadEnd, ReadBody;
      ghost var rest := Rest();
      ReadHeadFits(chunks, c, buffer, maxHeader, rest);
      var failure, end := FillHead();
      if failure.Some? { return Failed(failure.value); }
      ghost var whole, c0 := buffer, c;
      var head, more := buffer[..end + 2], buffer[end + 4..];
      buffer := "";
      assert head == rest[..end + 2];
      assert more + Remaining(chunks, c) == rest[end + 4..];
      match parse(head) {
        case Refused(code) => return Failed(code);
        case Length(n) =>
          if n > maxBody { return Failed(413); }
          ReadBodyFinds(chunks, c, more, n, rest[end + 4..]);
          var body := FillBody(more, n);
          if body == None { return Failed(if silent then 408 else 400); }
          buffer := body.value[n..];
          r := Got(head, body.value[..n]);
          Settle(rest, end + 4, n, body.value);
      }
    }

    ghost method Settle(rest: string, from: nat, n: nat, body: string)
      requires c <= |chunks| && Chunked(chunks) && from <= |rest| && n <= |body| && buffer == body[n..]
      requires body + Remaining(chunks, c) == rest[from..] && Remaining(chunks, 0) == consumed + rest
      modifies this`consumed
      ensures from + n <= |rest| && body[..n] == rest[from..from + n]
      ensures consumed == old(consumed) + rest[..from + n] && Rest() == rest[from + n..] && Valid()
    {
      var tail := rest[from..];
      assert tail[..n] == body[..n] && tail[n..] == buffer + Remaining(chunks, c);
      assert rest[from + n..] == tail[n..];
      assert rest == rest[..from + n] + rest[from + n..];
      consumed := consumed + rest[..from + n];
    }

    /** The loop over the requests of a connection. */
    method Serve() returns (served: seq<Exchange>, code: nat)
      requires Valid() && AllFit(Rest(), parse, keeps, maxBody, maxHeader)
      modifies this`c, this`buffer, this`consumed
      ensures served == Requests(old(Rest()), parse, keeps, maxBody)
      ensures code == EndCode(old(Rest()), parse, keeps, maxBody, silent)
    {
      served := [];
      ghost var all, end := Requests(Rest(), parse, keeps, maxBody), EndCode(Rest(), parse, keeps, maxBody, silent);
      while true
        invariant Valid() && AllFit(Rest(), parse, keeps, maxBody, maxHeader)
        invariant served + Requests(Rest(), parse, keeps, maxBody) == all
        invariant EndCode(Rest(), parse, keeps, maxBody, silent) == end
        decreases |Rest()|
      {
        ghost var rest := Rest();
        var r := ReadRequest();
        if r.Failed? {
          assert served + [] == served;
          return served, r.code;
        }
        var e := (r.head, r.body);
        ServedMore(served, rest, e, NextRequest(rest, parse, maxBody).used, parse, keeps, maxBody, silent);
        served := served + [e];
        if !keeps(r.head) {
          assert served + [] == served;
          return served, 0;
        }
      }
    }
  }

  /** Two splittings of the same bytes give the same requests, and the connection ends alike. */
  method SameRequests(a: seq<string>, b: seq<string>, silent: bool, maxHeader: nat, maxBody: nat, parse: HeadParser,
                      keeps: Decision)
    returns (ofA: seq<Exchange>, ofB: seq<Exchange>, codeA: nat, codeB: nat)
    requires Chunked(a) && Chunked(b) && Remaining(a, 0) == Remaining(b, 0)
    requires AllFit(Remaining(a, 0), parse, keeps, maxBody, maxHeader)
    ensures ofA == ofB == Requests(Remaining(a, 0), parse, keeps, maxBody)
    ensures codeA == codeB == EndCode(Remaining(a, 0), parse, keeps, maxBody, silent)
  {
    var x := new Connection(a, silent, maxHeader, maxBody, parse, keeps);
    ofA, codeA := x.Serve();
    var y := new Connection(b, silent, maxHeader, maxBody, parse, keeps);
    ofB, codeB := y.Serve();
  }
}
