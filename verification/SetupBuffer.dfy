/**
  The setup messages in their buffers. For a writer `buf` is the memory from the start of the buffer on,
  so that a message longer than the buffer is seen to go past it; a reader gets all of memory and an
  address, and takes the lengths it finds there on trust.
 */
module SetupBuffer {
  import opened Words
  import opened Wire
  import opened SetupCodec

  // ----- writers ---------------------------------------------------------------------------------
  // `whole` is the message, `rest` what is still to be written after this field.

  method Put16(v: U16, at: nat, buf: array<U8>, ghost whole: Bytes, ghost rest: Bytes) returns (next: nat)
    requires at <= buf.Length && |whole| <= buf.Length && buf[..at] + (BigEndian(v, 2) + rest) == whole
    modifies buf
    ensures next == at + 2 <= buf.Length && buf[..next] + rest == whole
    ensures forall i :: next <= i < buf.Length ==> buf[i] == old(buf[i])
  {
    Assoc(buf[..at], BigEndian(v, 2), rest);
    WriteU16(v, at, buf);
    next := at + 2;
  }

  method Put32(v: U32, at: nat, buf: array<U8>, ghost whole: Bytes, ghost rest: Bytes) returns (next: nat)
    requires at <= buf.Length && |whole| <= buf.Length && buf[..at] + (BigEndian(v, 4) + rest) == whole
    modifies buf
    ensures next == at + 4 <= buf.Length && buf[..next] + rest == whole
    ensures forall i :: next <= i < buf.Length ==> buf[i] == old(buf[i])
  {
    Assoc(buf[..at], BigEndian(v, 4), rest);
    WriteU32(v, at, buf);
    next := at + 4;
  }

  method Put64(v: U64, at: nat, buf: array<U8>, ghost whole: Bytes, ghost rest: Bytes) returns (next: nat)
    requires at <= buf.Length && |whole| <= buf.Length && buf[..at] + (BigEndian(v, 8) + rest) == whole
    modifies buf
    ensures next == at + 8 <= buf.Length && buf[..next] + rest == whole
    ensures forall i :: next <= i < buf.Length ==> buf[i] == old(buf[i])
  {
    Assoc(buf[..at], BigEndian(v, 8), rest);
    WriteU64(v, at, buf);
    next := at + 8;
  }

  method PutBytes(b: Bytes, at: nat, buf: array<U8>, ghost whole: Bytes, ghost rest: Bytes) returns (next: nat)
    requires at <= buf.Length && |whole| <= buf.Length && buf[..at] + (b + rest) == whole
    modifies buf
    ensures next == at + |b| <= buf.Length && buf[..next] + rest == whole
    ensures forall i :: next <= i < buf.Length ==> buf[i] == old(buf[i])
  {
    Assoc(buf[..at], b, rest);
    WriteArray(b, at, buf);
    next := at + |b|;
  }

  lemma Assoc(x: Bytes, y: Bytes, z: Bytes)
    ensures x + (y + z) == (x + y) + z
  {
  }

  method PutDepths(d: Depths, at: nat, buf: array<U8>, ghost whole: Bytes, ghost rest: Bytes) returns (next: nat)
    requires at <= buf.Length && |whole| <= buf.Length && buf[..at] + EncodeDepths(d, rest) == whole
    modifies buf
    ensures at <= next <= buf.Length && buf[..next] + rest == whole
    ensures forall i :: next <= i < buf.Length ==> buf[i] == old(buf[i])
  {
    hide BigEndian;
    ghost var r3 := BigEndian(d.rcvMsgs, 2) + rest;
    ghost var r2 := BigEndian(d.sndMsgs, 2) + r3;
    ghost var r1 := BigEndian(d.rcvBytes, 8) + r2;
    next := Put64(d.sndBytes, at, buf, whole, r1);
    next := Put64(d.rcvBytes, next, buf, whole, r2);
    next := Put16(d.sndMsgs, next, buf, whole, r3);
    next := Put16(d.rcvMsgs, next, buf, whole, rest);
  }

  /** `xio_session_write_setup_req`: the length of the message, or -1 when it exceeds the buffer. */
  method WriteSetupReq(r: SetupReq, buf: array<U8>) returns (n: int)
    requires IsReq(r) && |EncodeReq(r, [])| <= buf.Length
    modifies buf
    ensures var m := EncodeReq(r, []);
            && buf[..|m|] == m && (forall i :: |m| <= i < buf.Length ==> buf[i] == old(buf[i]))
            && n == if |m| <= 3840 then |m| else -1
  {
    hide BigEndian, EncodeDepths;
    ghost var m := EncodeReq(r, []);
    ghost var r5 := r.privateData + [];
    ghost var r4 := r.uri + r5;
    ghost var r3 := BigEndian(|r.privateData|, 2) + r4;
    ghost var r2 := BigEndian(|r.uri|, 2) + r3;
    assert buf[..0] + m == m;
    var at := Put32(r.id, 0, buf, m, EncodeDepths(r.depths, r2));
    at := PutDepths(r.depths, at, buf, m, r2);
    at := Put16(|r.uri|, at, buf, m, r3);
    at := Put16(|r.privateData|, at, buf, m, r4);
    at := PutBytes(r.uri, at, buf, m, r5);
    at := PutBytes(r.privateData, at, buf, m, []);
    assert buf[..at] + [] == buf[..at];
    n := if at > SETUP_BUFFER_LEN then -1 else at;
  }

  lemma WrapLater(x: int, y: int)
    ensures (x % TWO16 + y) % TWO16 == (x + y) % TWO16
  {
  }

  method ComputeTotLen(portals: seq<Bytes>, contextLen: U16) returns (total: U16)
    ensures total == TotLen(portals, contextLen)
  {
    total := 30;
    ghost var sum := 30;
    for i := 0 to |portals|
      invariant total == sum % TWO16 && sum + Size(portals[i..]) == 30 + Size(portals)
    {
      WrapLater(sum, |portals[i]| + 2);
      total := (total + |portals[i]| + 2) % TWO16;
      sum := sum + |portals[i]| + 2;
      assert portals[i..][1..] == portals[i + 1..];
    }
    WrapLater(sum, contextLen);
    total := (total + contextLen) % TWO16;
  }

  method PutStrings(ss: seq<Bytes>, at: nat, buf: array<U8>, ghost whole: Bytes, ghost rest: Bytes) returns (next: nat)
    requires at <= buf.Length && |whole| <= buf.Length && buf[..at] + EncodeStrings(ss, rest) == whole
    modifies buf
    ensures at <= next <= buf.Length && buf[..next] + rest == whole
    ensures forall i :: next <= i < buf.Length ==> buf[i] == old(buf[i])
  {
    hide BigEndian;
    next := at;
    assert ss[0..] == ss;
    for i := 0 to |ss|
      invariant at <= next <= buf.Length && buf[..next] + EncodeStrings(ss[i..], rest) == whole
      invariant forall k :: next <= k < buf.Length ==> buf[k] == old(buf[k])
    {
      ghost var more := EncodeStrings(ss[i + 1..], rest);
      assert ss[i..][1..] == ss[i + 1..];
      var s := ss[i][..StringLen(ss[i])];
      next := Put16(StringLen(ss[i]), next, buf, whole, s + more);
      next := PutBytes(s, next, buf, whole, more);
    }
  }

  /** The part of the writer behind the guard. */
  method PutAccept(id: U32, action: U16, d: Depths, portals: seq<Bytes>, context: Bytes, buf: array<U8>)
    returns (at: nat)
    requires |portals| < TWO16 && |context| < TWO16
    requires |EncodeAccept(id, action, d, portals, context, [])| <= buf.Length
    modifies buf
    ensures var m := EncodeAccept(id, action, d, portals, context, []);
            at == |m| && buf[..at] == m && (forall i :: at <= i < buf.Length ==> buf[i] == old(buf[i]))
  {
    hide BigEndian, EncodeDepths, EncodeStrings;
    ghost var m := EncodeAccept(id, action, d, portals, context, []);
    ghost var r3 := EncodeStrings(portals, context + []);
    ghost var r2 := BigEndian(|context|, 2) + r3;
    ghost var r1 := BigEndian(|portals|, 2) + r2;
    ghost var r0 := if action == ACTION_ACCEPT then EncodeDepths(d, r1) else r1;
    assert buf[..0] + m == m;
    at := Put32(id, 0, buf, m, BigEndian(action, 2) + r0);
    at := Put16(action, at, buf, m, r0);
    if action == ACTION_ACCEPT { at := PutDepths(d, at, buf, m, r1); }
    at := Put16(|portals|, at, buf, m, r2);
    at := Put16(|context|, at, buf, m, r3);
    at := PutStrings(portals, at, buf, m, context + []);
    at := PutBytes(context, at, buf, m, []);
    assert buf[..at] + [] == buf[..at];
  }

  /** `xio_session_write_accept_rsp`: the length of the message, or -1 when the guard refuses. */
  method WriteAcceptRsp(id: U32, action: U16, d: Depths, portals: seq<Bytes>, context: Bytes, buf: array<U8>)
    returns (n: int)
    requires |portals| < TWO16 && |context| < TWO16
    requires |EncodeAccept(id, action, d, portals, context, [])| <= buf.Length
    modifies buf
    ensures var m := EncodeAccept(id, action, d, portals, context, []);
            && (n == -1 <==> !GuardPasses(|m|, Overcount(action)))
            && (n != -1 ==> n == |m| && buf[..n] == m)
            && (forall i :: (if n == -1 then 0 else |m|) <= i < buf.Length ==> buf[i] == old(buf[i]))
  {
    hide EncodeAccept, TotLen;
    AcceptLength(id, action, d, portals, context);
    var total := ComputeTotLen(portals, |context|);
    if total > SETUP_BUFFER_LEN { return -1; }
    n := PutAccept(id, action, d, portals, context, buf);
  }

  /** `xio_session_write_reject_rsp` */
  method WriteRejectRsp(id: U32, reason: U32, context: Bytes, buf: array<U8>) returns (n: int)
    requires |context| < TWO16 && |EncodeReject(id, reason, context, [])| <= buf.Length
    modifies buf
    ensures var m := EncodeReject(id, reason, context, []);
            && (n == -1 <==> !GuardPasses(|m|, 0))
            && (n != -1 ==> n == |m| && buf[..n] == m)
            && (forall i :: (if n == -1 then 0 else |m|) <= i < buf.Length ==> buf[i] == old(buf[i]))
  {
    hide BigEndian;
    ghost var m := EncodeReject(id, reason, context, []);
    RejectLengthAgrees(id, reason, context);
    var total: U16 := (12 + |context|) % TWO16;
    if total > SETUP_BUFFER_LEN { return -1; }
    ghost var r3 := context + [];
    ghost var r2 := BigEndian(|context|, 2) + r3;
    ghost var r1 := BigEndian(reason, 4) + r2;
    assert buf[..0] + m == m;
    var at := Put32(id, 0, buf, m, BigEndian(ACTION_REJECT, 2) + r1);
    at := Put16(ACTION_REJECT, at, buf, m, r1);
    at := Put32(reason, at, buf, m, r2);
    at := Put16(|context|, at, buf, m, r3);
    at := PutBytes(context, at, buf, m, []);
    assert buf[..at] + [] == buf[..at];
    n := at;
  }

  // ----- readers ---------------------------------------------------------------------------------

  method Get16(mem: Memory, at: nat) returns (v: U16, next: nat)
    ensures v == U16At(mem, at) && next == at + 2
  {
    v := ReadU16(at, mem);
    next := at + 2;
  }

  method Get32(mem: Memory, at: nat) returns (v: U32, next: nat)
    ensures v == U32At(mem, at) && next == at + 4
  {
    v := ReadU32(at, mem);
    next := at + 4;
  }

  method Get64(mem: Memory, at: nat) returns (v: U64, next: nat)
    ensures v == U64At(mem, at) && next == at + 8
  {
    v := ReadU64(at, mem);
    next := at + 8;
  }

  /** `xio_read_array` */
  method GetBytes(n: nat, mem: Memory, at: nat) returns (b: Bytes, next: nat)
    ensures b == Slice(mem, at, n) && next == at + n
  {
    b, next := [], at + n;
    for i := 0 to n
      invariant b == Slice(mem, at, i)
    {
      b := b + [mem(at + i)];
    }
  }

  method GetDepths(mem: Memory, at: nat) returns (d: Depths, next: nat)
    ensures d == ParseDepths(mem, at) && next == at + 20
  {
    hide U16At, U64At;
    var sndBytes, rcvBytes, sndMsgs, rcvMsgs;
    sndBytes, next := Get64(mem, at);
    rcvBytes, next := Get64(mem, next);
    sndMsgs, next := Get16(mem, next);
    rcvMsgs, next := Get16(mem, next);
    d := Depths(sndBytes, rcvBytes, sndMsgs, rcvMsgs);
  }

  /** The decoding part of `xio_on_setup_req_recv`: it undoes the writer on every request. */
  method ReadSetupReq(mem: Memory, at: nat) returns (r: SetupReq, end: nat)
    ensures (r, end) == ParseReq(mem, at)
    ensures forall q: SetupReq :: IsReq(q) && Holds(mem, at, EncodeReq(q, [])) ==>
              r == q && end == at + |EncodeReq(q, [])|
  {
    hide U16At, U32At, Slice, ParseDepths, Holds, EncodeReq;
    var id, depths, uriLen, privateLen, uri, privateData;
    id, end := Get32(mem, at);
    depths, end := GetDepths(mem, end);
    uriLen, end := Get16(mem, end);
    privateLen, end := Get16(mem, end);
    uri, end := GetBytes(uriLen, mem, end);
    privateData, end := GetBytes(privateLen, mem, end);
    r := SetupReq(id, depths, uri, privateData);
    assert (r, end) == ParseReq(mem, at);
    forall q: SetupReq | IsReq(q) && Holds(mem, at, EncodeReq(q, []))
      ensures r == q && end == at + |EncodeReq(q, [])|
    {
      RequestRoundTrip(mem, at, q);
    }
  }

  lemma Longer(x: seq<Bytes>, y: Bytes, z: seq<Bytes>)
    ensures x + ([y] + z) == (x + [y]) + z
  {
  }

  method GetStrings(n: U16, mem: Memory, at: nat) returns (ss: seq<Bytes>, next: nat)
    ensures (ss, next) == ParseStrings(mem, at, n)
  {
    hide U16At, Slice, UpToNul;
    ss, next := [], at;
    ghost var p := ParseStrings(mem, at, n);
    assert [] + p.0 == p.0;
    var i := 0;
    while i < n
      invariant i <= n
      invariant var q := ParseStrings(mem, next, n - i); p == (ss + q.0, q.1)
    {
      ghost var at0 := next;
      var len, s;
      len, next := Get16(mem, next);
      s, next := GetBytes(len, mem, next);
      Longer(ss, UpToNul(s), ParseStrings(mem, next, n - i - 1).0);
      ss := ss + [UpToNul(s)];
      i := i + 1;
    }
    assert ss + [] == ss;
  }

  method ReadAccept(id: U32, mem: Memory, at: nat) returns (r: SetupRsp, end: nat)
    ensures (r, end) == ParseAccept(id, mem, at)
  {
    hide U16At, Slice, ParseDepths, ParseStrings;
    var depths, count, privateLen, portals, privateData;
    depths, end := GetDepths(mem, at);
    count, end := Get16(mem, end);
    privateLen, end := Get16(mem, end);
    portals, end := GetStrings(count, mem, end);
    privateData, end := GetBytes(privateLen, mem, end);
    r := Accept(id, depths, portals, privateData);
  }

  method ReadRedirect(id: U32, mem: Memory, at: nat) returns (r: SetupRsp, end: nat)
    ensures (r, end) == ParseRedirect(id, mem, at)
  {
    hide U16At, ParseStrings;
    var count, privateLen, services;
    count, end := Get16(mem, at);
    privateLen, end := Get16(mem, end);
    services, end := GetStrings(count, mem, end);
    r := Redirect(id, services, privateLen);
  }

  method ReadReject(id: U32, mem: Memory, at: nat) returns (r: SetupRsp, end: nat)
    ensures (r, end) == ParseReject(id, mem, at)
  {
    hide U16At, U32At, Slice;
    var reason, privateLen, privateData;
    reason, end := Get32(mem, at);
    privateLen, end := Get16(mem, end);
    privateData, end := GetBytes(privateLen, mem, end);
    r := Reject(id, reason, privateData);
  }

  /** What the client makes of each answer the server can write: the answer itself, with its strings as they
      were written, read to its end, but a REDIRECT only up to its private data. */
  ghost predicate UndoesAnswers(mem: Memory, at: nat, r: SetupRsp, end: nat) {
    && (forall id: U32, d, portals, context ::
          IsAnswer(portals, context) && Holds(mem, at, EncodeAccept(id, ACTION_ACCEPT, d, portals, context, [])) ==>
            r == Accept(id, d, CutAll(portals), context)
            && end == at + |EncodeAccept(id, ACTION_ACCEPT, d, portals, context, [])|)
    && (forall id: U32, d, services, context ::
          IsAnswer(services, context) && Holds(mem, at, EncodeAccept(id, ACTION_REDIRECT, d, services, context, [])) ==>
            r == Redirect(id, CutAll(services), |context|)
            && end + |context| == at + |EncodeAccept(id, ACTION_REDIRECT, d, services, context, [])|)
    && (forall id: U32, reason: U32, context ::
          |context| < TWO16 && Holds(mem, at, EncodeReject(id, reason, context, [])) ==>
            r == Reject(id, reason, context) && end == at + |EncodeReject(id, reason, context, [])|)
  }

  lemma ParseUndoesAnswers(mem: Memory, at: nat)
    ensures UndoesAnswers(mem, at, ParseRsp(mem, at).0, ParseRsp(mem, at).1)
  {
    hide ParseRsp, Holds, EncodeAccept, EncodeReject, IsCString, CutAll;
    forall id: U32, d, portals, context |
      IsAnswer(portals, context) && Holds(mem, at, EncodeAccept(id, ACTION_ACCEPT, d, portals, context, []))
      ensures ParseRsp(mem, at)
              == (Accept(id, d, CutAll(portals), context), at + |EncodeAccept(id, ACTION_ACCEPT, d, portals, context, [])|)
    {
      AcceptRoundTrip(mem, at, id, d, portals, context);
    }
    forall id: U32, d, services, context |
      IsAnswer(services, context) && Holds(mem, at, EncodeAccept(id, ACTION_REDIRECT, d, services, context, []))
      ensures ParseRsp(mem, at).0 == Redirect(id, CutAll(services), |context|)
      ensures ParseRsp(mem, at).1 + |context| == at + |EncodeAccept(id, ACTION_REDIRECT, d, services, context, [])|
    {
      RedirectRoundTrip(mem, at, id, d, services, context);
    }
    forall id: U32, reason: U32, context | |context| < TWO16 && Holds(mem, at, EncodeReject(id, reason, context, []))
      ensures ParseRsp(mem, at) == (Reject(id, reason, context), at + |EncodeReject(id, reason, context, [])|)
    {
      RejectRoundTrip(mem, at, id, reason, context);
    }
  }

  /** `xio_read_setup_rsp`: it undoes the writers on every answer. */
  method ReadSetupRsp(mem: Memory, at: nat) returns (r: SetupRsp, end: nat)
    ensures (r, end) == ParseRsp(mem, at)
    ensures UndoesAnswers(mem, at, r, end)
  {
    hide U16At, U32At, ParseAccept, ParseRedirect, ParseReject, UndoesAnswers;
    var id, action;
    id, end := Get32(mem, at);
    action, end := Get16(mem, end);
    if action == ACTION_ACCEPT {
      r, end := ReadAccept(id, mem, end);
    } else if action == ACTION_REDIRECT {
      r, end := ReadRedirect(id, mem, end);
    } else if action == ACTION_REJECT {
      r, end := ReadReject(id, mem, end);
    } else {
      r := Unknown(id, action);
    }
    ParseUndoesAnswers(mem, at);
  }

  // ----- through the buffer ----------------------------------------------------------------------

  /** The bytes `b` followed by other memory. */
  function Followed(b: Bytes, beyond: Memory): Memory { (i: nat) => if i < |b| then b[i] else beyond(i) }

  lemma {:induction false} FollowedHolds(b: Bytes, beyond: Memory, n: nat)
    requires n <= |b|
    ensures Slice(Followed(b, beyond), 0, n) == b[..n]
  {
    if n > 0 { FollowedHolds(b, beyond, n - 1); }
  }

  /** A request written, and read on the other side whatever lies behind it. */
  method RequestThroughBuffer(r: SetupReq, buf: array<U8>, beyond: Memory) returns (n: int, got: SetupReq, end: nat)
    requires IsReq(r) && |EncodeReq(r, [])| <= buf.Length
    modifies buf
    ensures got == r && (n == end <= SETUP_BUFFER_LEN || n == -1 < SETUP_BUFFER_LEN < end)
  {
    hide EncodeReq;
    n := WriteSetupReq(r, buf);
    ghost var m := EncodeReq(r, []);
    FollowedHolds(buf[..], beyond, |m|);
    got, end := ReadSetupReq(Followed(buf[..], beyond), 0);
  }

  /** An ACCEPT or REDIRECT that passes the guard, likewise. */
  method AnswerThroughBuffer(id: U32, accept: bool, d: Depths, portals: seq<Bytes>, context: Bytes, buf: array<U8>,
                             beyond: Memory)
    returns (n: int, got: SetupRsp, end: nat)
    requires IsAnswer(portals, context)
    requires |EncodeAccept(id, if accept then ACTION_ACCEPT else ACTION_REDIRECT, d, portals, context, [])| <= buf.Length
    modifies buf
    ensures var action := if accept then ACTION_ACCEPT else ACTION_REDIRECT;
            n == -1 <==> !GuardPasses(|EncodeAccept(id, action, d, portals, context, [])|, Overcount(action))
    ensures n != -1 && accept ==> got == Accept(id, d, CutAll(portals), context) && end == n
    ensures n != -1 && !accept ==> got == Redirect(id, CutAll(portals), |context|) && end + |context| == n
    ensures CutAll(portals) == portals <==> AllShort(portals)
  {
    hide EncodeAccept, UndoesAnswers, Slice, ParseRsp, IsCString, GuardPasses, CutAll, AllShort;
    CutAllIff(portals);
    var action := if accept then ACTION_ACCEPT else ACTION_REDIRECT;
    n := WriteAcceptRsp(id, action, d, portals, context, buf);
    var mem := Followed(buf[..], beyond);
    got, end := ReadSetupRsp(mem, 0);
    if n != -1 {
      FollowedHolds(buf[..], beyond, n);
      if accept {
        AcceptRoundTrip(mem, 0, id, d, portals, context);
      } else {
        RedirectRoundTrip(mem, 0, id, d, portals, context);
      }
    }
  }

  /** A REJECT that passes the guard, likewise. */
  method RejectThroughBuffer(id: U32, reason: U32, context: Bytes, buf: array<U8>, beyond: Memory)
    returns (n: int, got: SetupRsp, end: nat)
    requires |context| < TWO16 && |EncodeReject(id, reason, context, [])| <= buf.Length
    modifies buf
    ensures n == -1 <==> !GuardPasses(|EncodeReject(id, reason, context, [])|, 0)
    ensures n != -1 ==> got == Reject(id, reason, context) && end == n
  {
    hide EncodeReject, UndoesAnswers, Slice, ParseRsp, GuardPasses;
    n := WriteRejectRsp(id, reason, context, buf);
    var mem := Followed(buf[..], beyond);
    got, end := ReadSetupRsp(mem, 0);
    if n != -1 {
      FollowedHolds(buf[..], beyond, n);
      RejectRoundTrip(mem, 0, id, reason, context);
    }
  }
}
