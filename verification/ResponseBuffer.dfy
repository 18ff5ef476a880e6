/**
 The buffering response writer (knox-proxy/proxy/handler.go) next to the writer it stands in
 for. Header names are canonical; content sniffing and Content-Length checks are not modelled.
 */
module ResponseBuffer {
  import opened Options

  type Header = map<string, seq<string>>

  datatype Op =
    | SetHeader(key: string, value: string)
    | AddHeader(key: string, value: string)
    | DelHeader(key: string)
    | WriteHeader(code: nat)
    | Write(data: Bytes)

  function Values(h: Header, key: string): seq<string> {
    if key in h then h[key] else []
  }

  function Edit(h: Header, op: Op): Header {
    match op
    case SetHeader(k, v) => h[k := [v]]
    case AddHeader(k, v) => h[k := Values(h, k) + [v]]
    case DelHeader(k) => h - {k}
    case _ => h
  }

  /** Set replaces, add appends, delete removes, and other names stay. */
  lemma EditMeans(h: Header, key: string, value: string, other: string)
    ensures Values(Edit(h, SetHeader(key, value)), key) == [value]
    ensures Values(Edit(h, AddHeader(key, value)), key) == Values(h, key) + [value]
    ensures Values(Edit(h, DelHeader(key)), key) == []
    ensures other != key ==>
      Values(Edit(h, SetHeader(key, value)), other) == Values(Edit(h, AddHeader(key, value)), other)
      == Values(Edit(h, DelHeader(key)), other) == Values(h, other)
  {
  }

  /** Every value of every name added in turn; the order of the names does not matter. */
  ghost function AddAll(dst: Header, src: Header, keys: set<string>): Header {
    map k | k in dst.Keys + src.Keys && (k in dst || (k in keys && Values(src, k) != [])) ::
      Values(dst, k) + if k in keys then Values(src, k) else []
  }

  /** 1xx statuses other than 101 are interim: net/http sends them and still awaits the final one. */
  predicate Interim(code: nat) {
    100 <= code <= 199 && code != 101
  }

  // ---------- net/http's writer ----------

  /** `sent` is the header as it went out with the final status. */
  datatype Wire = Wire(headers: Header, committed: bool, status: nat, sent: Header, body: Bytes)

  const FRESH_WIRE: Wire := Wire(map[], false, 200, map[], [])

  function Commit(w: Wire, code: nat): Wire {
    if w.committed || Interim(code) then w else w.(committed := true, status := code, sent := w.headers)
  }

  function WireOp(w: Wire, op: Op): Wire {
    match op
    case WriteHeader(code) => Commit(w, code)
    case Write(data) => Commit(w, 200).(body := w.body + data)
    case _ => w.(headers := Edit(w.headers, op))
  }

  datatype Response = Response(status: nat, headers: Header, body: Bytes)

  /** What the client gets once the handler returns. */
  function Outcome(w: Wire): Response {
    var done := Commit(w, 200);
    Response(done.status, done.sent, done.body)
  }

  // ---------- the buffer ----------

  datatype Buffer = Buffer(headers: Header, statusCode: nat, body: Bytes, wroteHeader: bool)

  const FRESH_BUFFER: Buffer := Buffer(map[], 200, [], false)

  function BufferOp(b: Buffer, op: Op): Buffer {
    match op
    case WriteHeader(code) => if b.wroteHeader then b else b.(statusCode := code, wroteHeader := true)
    case Write(data) =>
      var c := if b.wroteHeader then b else b.(statusCode := 200, wroteHeader := true);
      c.(body := c.body + data)
    case _ => b.(headers := Edit(b.headers, op))
  }

  ghost function Flush(b: Buffer, w: Wire): Wire {
    var started := WireOp(w.(headers := AddAll(w.headers, b.headers, b.headers.Keys)), WriteHeader(b.statusCode));
    if |b.body| > 0 then WireOp(started, Write(b.body)) else started
  }

  class ResponseWriter {
    var wire: Wire

    constructor ()
      ensures wire == FRESH_WIRE
    {
      wire := FRESH_WIRE;
    }

    method Do(op: Op)
      modifies this
      ensures wire == WireOp(old(wire), op)
    {
      wire := WireOp(wire, op);
    }
  }

  class BufferedResponse {
    var headers: Header
    var statusCode: nat
    var body: Bytes
    var wroteHeader: bool

    ghost function State(): Buffer
      reads this
    {
      Buffer(headers, statusCode, body, wroteHeader)
    }

    constructor ()
      ensures State() == FRESH_BUFFER
    {
      headers, statusCode, body, wroteHeader := map[], 200, [], false;
    }

    method WriteHeader(code: nat)
      modifies this
      ensures State() == BufferOp(old(State()), Op.WriteHeader(code))
    {
      if !wroteHeader {
        statusCode := code;
        wroteHeader := true;
      }
    }

    method Write(data: Bytes)
      modifies this
      ensures State() == BufferOp(old(State()), Op.Write(data))
    {
      if !wroteHeader {
        statusCode := 200;
        wroteHeader := true;
      }
      body := body + data;
    }

    method FlushTo(w: ResponseWriter)
      modifies w
      ensures w.wire == Flush(State(), old(w.wire))
    {
      ghost var dst := w.wire.headers;
      var rest := headers.Keys;
      AddNone(dst, headers);
      while rest != {}
        invariant rest <= headers.Keys
        invariant w.wire == old(w.wire).(headers := AddAll(dst, headers, headers.Keys - rest))
        decreases rest
      {
        var k :| k in rest;
        var vs := headers[k];
        ghost var before := w.wire.headers;
        for i := 0 to |vs|
          invariant w.wire == old(w.wire).(headers := AddFirst(before, k, vs[..i]))
        {
          w.Do(AddHeader(k, vs[i]));
          AddOne(before, k, vs, i);
        }
        assert vs[..|vs|] == vs;
        AddKey(dst, headers, headers.Keys - rest, k);
        assert headers.Keys - (rest - {k}) == (headers.Keys - rest) + {k};
        rest := rest - {k};
      }
      assert headers.Keys - rest == headers.Keys;
      w.Do(Op.WriteHeader(statusCode));
      if |body| > 0 {
        w.Do(Op.Write(body));
      }
    }
  }

  function AddFirst(h: Header, k: string, vs: seq<string>): Header {
    if vs == [] then h else h[k := Values(h, k) + vs]
  }

  lemma AddOne(h: Header, k: string, vs: seq<string>, i: nat)
    requires i < |vs|
    ensures Edit(AddFirst(h, k, vs[..i]), AddHeader(k, vs[i])) == AddFirst(h, k, vs[..i + 1])
  {
    var m := AddFirst(h, k, vs[..i]);
    assert Values(h, k) + [] == Values(h, k);
    assert Values(m, k) == Values(h, k) + vs[..i];
    assert Values(m, k) + [vs[i]] == Values(h, k) + vs[..i + 1];
    assert m[k := Values(h, k) + vs[..i + 1]] == h[k := Values(h, k) + vs[..i + 1]];
  }

  lemma AddNone(dst: Header, src: Header)
    ensures AddAll(dst, src, src.Keys - src.Keys) == dst
  {
    assert forall k :: k in dst ==> Values(dst, k) + [] == dst[k];
  }

  lemma AddKey(dst: Header, src: Header, keys: set<string>, k: string)
    requires k in src && k !in keys
    ensures AddFirst(AddAll(dst, src, keys), k, src[k]) == AddAll(dst, src, keys + {k})
  {
    var a, b := AddAll(dst, src, keys), AddAll(dst, src, keys + {k});
    assert Values(dst, k) + [] == Values(dst, k);
    assert Values(a, k) == Values(dst, k);
    assert Values(dst, k) + src[k] == Values(b, k);
    assert AddFirst(a, k, src[k]).Keys == b.Keys;
  }

  // ---------- flushing is direct writing ----------

  function RunWire(w: Wire, ops: seq<Op>): Wire
    decreases ops
  {
    if ops == [] then w else RunWire(WireOp(w, ops[0]), ops[1..])
  }

  function RunBuffer(b: Buffer, ops: seq<Op>): Buffer
    decreases ops
  {
    if ops == [] then b else RunBuffer(BufferOp(b, ops[0]), ops[1..])
  }

  // ---------- what the calls say ----------

  predicate IsEdit(op: Op) {
    !op.WriteHeader? && !op.Write?
  }

  /** The call that sends the final status: the first body write or final status, or the handler's return. */
  function CommitAt(ops: seq<Op>): (n: nat)
    ensures n <= |ops|
  {
    if ops == [] then 0
    else if ops[0].Write? || (ops[0].WriteHeader? && !Interim(ops[0].code)) then 0
    else 1 + CommitAt(ops[1..])
  }

  /** The status it sends. */
  function FinalStatus(ops: seq<Op>): nat {
    if CommitAt(ops) < |ops| && ops[CommitAt(ops)].WriteHeader? then ops[CommitAt(ops)].code else 200
  }

  /** The first status or body write, if there is one, is an interim status. */
  predicate FirstInterim(ops: seq<Op>) {
    ops != [] && (if IsEdit(ops[0]) then FirstInterim(ops[1..]) else ops[0].WriteHeader? && Interim(ops[0].code))
  }

  function EditAll(h: Header, ops: seq<Op>): Header
    decreases ops
  {
    if ops == [] then h else EditAll(Edit(h, ops[0]), ops[1..])
  }

  function Appended(body: Bytes, ops: seq<Op>): Bytes
    decreases ops
  {
    if ops == [] then body else Appended(if ops[0].Write? then body + ops[0].data else body, ops[1..])
  }

  lemma {:induction false} CommittedStays(w: Wire, ops: seq<Op>)
    requires w.committed
    ensures var v := RunWire(w, ops);
            v.committed && v.status == w.status && v.sent == w.sent && v.body == Appended(w.body, ops)
    decreases ops
  {
    if ops != [] {
      CommittedStays(WireOp(w, ops[0]), ops[1..]);
    }
  }

  /** Writing directly sends the status of the committing call, the headers as they are then, and all bytes. */
  lemma {:induction false} DirectIs(w: Wire, ops: seq<Op>)
    requires !w.committed
    ensures Outcome(RunWire(w, ops)) == Response(FinalStatus(ops), EditAll(w.headers, ops[..CommitAt(ops)]), Appended(w.body, ops))
    decreases ops
  {
    if ops == [] {
    } else if CommitAt(ops) == 0 {
      CommittedStays(WireOp(w, ops[0]), ops[1..]);
      assert ops[..0] == [];
    } else {
      DirectIs(WireOp(w, ops[0]), ops[1..]);
      assert ops[..CommitAt(ops)] == [ops[0]] + ops[1..][..CommitAt(ops[1..])];
    }
  }

  /** The first status kept. */
  function KeptStatus(ops: seq<Op>): nat {
    if ops == [] then 200
    else if IsEdit(ops[0]) then KeptStatus(ops[1..])
    else if ops[0].WriteHeader? then ops[0].code else 200
  }

  lemma {:induction false} BufferIs(b: Buffer, ops: seq<Op>)
    requires !b.wroteHeader ==> b.statusCode == 200
    ensures var c := RunBuffer(b, ops);
            && c.statusCode == (if b.wroteHeader then b.statusCode else KeptStatus(ops))
            && c.headers == EditAll(b.headers, ops) && c.body == Appended(b.body, ops)
    decreases ops
  {
    if ops != [] {
      BufferIs(BufferOp(b, ops[0]), ops[1..]);
    }
  }

  lemma {:induction false} KeptOrFinal(ops: seq<Op>)
    ensures if FirstInterim(ops) then Interim(KeptStatus(ops)) else KeptStatus(ops) == FinalStatus(ops) && !Interim(KeptStatus(ops))
  {
    if ops != [] {
      KeptOrFinal(ops[1..]);
    }
  }

  lemma {:induction false} EditsHaveValues(h: Header, ops: seq<Op>)
    requires forall k :: k in h ==> h[k] != []
    ensures NonEmpty(EditAll(h, ops)) == EditAll(h, ops)
    decreases ops
  {
    if ops != [] {
      EditsHaveValues(Edit(h, ops[0]), ops[1..]);
    }
  }

  /** Names without a value never reach the client. */
  function NonEmpty(h: Header): Header {
    map k | k in h && h[k] != [] :: h[k]
  }

  lemma FlushOutcome(b: Buffer)
    ensures Outcome(Flush(b, FRESH_WIRE)) ==
            Response(if Interim(b.statusCode) then 200 else b.statusCode, NonEmpty(b.headers), b.body)
  {
    assert forall k :: k in b.headers ==> [] + b.headers[k] == b.headers[k];
    assert AddAll(map[], b.headers, b.headers.Keys) == NonEmpty(b.headers);
    assert [] + b.body == b.body;
  }

  /** What a client gets of a handler's calls through the buffer, and without it. */
  ghost function Flushed(ops: seq<Op>): Response {
    Outcome(Flush(RunBuffer(FRESH_BUFFER, ops), FRESH_WIRE))
  }

  function Direct(ops: seq<Op>): Response {
    Outcome(RunWire(FRESH_WIRE, ops))
  }

  /**
   The buffer delivers every body unchanged; the status iff no interim status came first or the
   final one is 200 anyway; and the headers iff the edits after the commit leave them as they
   were.
   */
  lemma FlushIsDirectIff(ops: seq<Op>)
    ensures Flushed(ops).body == Direct(ops).body
    ensures Flushed(ops).status == Direct(ops).status <==> !FirstInterim(ops) || FinalStatus(ops) == 200
    ensures Flushed(ops).headers == Direct(ops).headers <==> EditAll(map[], ops) == EditAll(map[], ops[..CommitAt(ops)])
  {
    BufferIs(FRESH_BUFFER, ops);
    DirectIs(FRESH_WIRE, ops);
    FlushOutcome(RunBuffer(FRESH_BUFFER, ops));
    KeptOrFinal(ops);
    EditsHaveValues(map[], ops);
  }

  /** An interim status written first hides every other status behind 200. */
  lemma InterimBecomesOK(interim: nat, code: nat)
    requires 100 <= interim <= 199 && interim != 101 && (code == 101 || code >= 200)
    ensures var ops := [WriteHeader(interim), WriteHeader(code)];
            Flushed(ops).status == 200 && Direct(ops).status == code
  {
    var ops := [WriteHeader(interim), WriteHeader(code)];
    assert ops[1..] == [WriteHeader(code)] && ops[1..][1..] == [];
    BufferIs(FRESH_BUFFER, ops);
    DirectIs(FRESH_WIRE, ops);
    FlushOutcome(RunBuffer(FRESH_BUFFER, ops));
    assert CommitAt(ops[1..]) == 0 && CommitAt(ops) == 1;
  }

  /** No header edit follows a status or a body write. */
  predicate NoLateEdits(ops: seq<Op>, committed: bool)
    decreases ops
  {
    ops == [] || (if IsEdit(ops[0]) then !committed && NoLateEdits(ops[1..], committed) else NoLateEdits(ops[1..], true))
  }

  predicate AllFinal(ops: seq<Op>) {
    forall i :: 0 <= i < |ops| && ops[i].WriteHeader? ==> !Interim(ops[i].code)
  }

  lemma {:induction false} LateEditsAreNone(h: Header, ops: seq<Op>)
    requires AllFinal(ops)
    ensures NoLateEdits(ops, true) ==> EditAll(h, ops) == h
    ensures NoLateEdits(ops, false) ==> EditAll(h, ops) == EditAll(h, ops[..CommitAt(ops)]) && !FirstInterim(ops)
    decreases ops
  {
    if ops != [] {
      assert AllFinal(ops[1..]);
      LateEditsAreNone(Edit(h, ops[0]), ops[1..]);
      if CommitAt(ops) == 0 {
        assert ops[..0] == [];
      } else {
        assert ops[..CommitAt(ops)] == [ops[0]] + ops[1..][..CommitAt(ops[1..])];
      }
    }
  }

  /** Final statuses and no header edits after the commit: the buffer cannot be told from the writer. */
  lemma BufferUnnoticed(ops: seq<Op>)
    requires AllFinal(ops) && NoLateEdits(ops, false)
    ensures Flushed(ops) == Direct(ops)
  {
    LateEditsAreNone(map[], ops);
    FlushIsDirectIff(ops);
  }
}
