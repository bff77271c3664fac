/**
  The session setup messages: what the client writes and the server reads, and the three answers the
  server writes and the client reads. `Encode…` functions take the bytes that follow the message.
 */
module SetupCodec {
  import opened Words
  import opened Wire

  const SETUP_BUFFER_LEN := 3840
  const ACTION_ACCEPT: U16 := 1
  const ACTION_REDIRECT: U16 := 2
  const ACTION_REJECT: U16 := 3

  type Bytes = seq<U8>

  datatype Depths = Depths(sndBytes: U64, rcvBytes: U64, sndMsgs: U16, rcvMsgs: U16)

  datatype SetupReq = SetupReq(id: U32, depths: Depths, uri: Bytes, privateData: Bytes)

  /** What the client learns from an answer. A redirect leaves the private data unread. */
  datatype SetupRsp =
    | Accept(id: U32, depths: Depths, portals: seq<Bytes>, privateData: Bytes)
    | Redirect(id: U32, services: seq<Bytes>, privateLen: U16)
    | Reject(id: U32, reason: U32, privateData: Bytes)
    | Unknown(id: U32, action: U16)

  // ----- writing ---------------------------------------------------------------------------------

  function EncodeDepths(d: Depths, rest: Bytes): Bytes {
    BigEndian(d.sndBytes, 8) + (BigEndian(d.rcvBytes, 8)
      + (BigEndian(d.sndMsgs, 2) + (BigEndian(d.rcvMsgs, 2) + rest)))
  }

  function EncodeReq(r: SetupReq, rest: Bytes): Bytes {
    BigEndian(r.id, 4) + EncodeDepths(r.depths,
      BigEndian(|r.uri|, 2) + (BigEndian(|r.privateData|, 2) + (r.uri + (r.privateData + rest))))
  }

  /** `strlen` is cut to 16 bits, and so is what is copied. */
  function StringLen(s: Bytes): U16 { |s| % TWO16 }

  function EncodeStrings(ss: seq<Bytes>, rest: Bytes): Bytes {
    if ss == [] then rest
    else BigEndian(StringLen(ss[0]), 2) + (ss[0][..StringLen(ss[0])] + EncodeStrings(ss[1..], rest))
  }

  function EncodePortals(portals: seq<Bytes>, context: Bytes, rest: Bytes): Bytes {
    BigEndian(|portals|, 2) + (BigEndian(|context|, 2) + EncodeStrings(portals, context + rest))
  }

  function EncodeAccept(id: U32, action: U16, d: Depths, portals: seq<Bytes>, context: Bytes, rest: Bytes): Bytes {
    var tail := EncodePortals(portals, context, rest);
    BigEndian(id, 4) + (BigEndian(action, 2) + if action == ACTION_ACCEPT then EncodeDepths(d, tail) else tail)
  }

  function EncodeReject(id: U32, reason: U32, context: Bytes, rest: Bytes): Bytes {
    BigEndian(id, 4) + (BigEndian(ACTION_REJECT, 2)
      + (BigEndian(reason, 4) + (BigEndian(|context|, 2) + (context + rest))))
  }

  // ----- where the fields are --------------------------------------------------------------------

  lemma Field(m: Bytes, at: nat, f: Bytes, rest: Bytes)
    requires at <= |m| && m[at..] == f + rest
    ensures at + |f| <= |m| && m[at..at + |f|] == f && m[at + |f|..] == rest
  {
    assert |m| - at == |f| + |rest|;
    assert m[at..at + |f|] == m[at..][..|f|] && m[at + |f|..] == m[at..][|f|..];
  }

  lemma DepthsLayout(m: Bytes, at: nat, d: Depths, rest: Bytes)
    requires at <= |m| && m[at..] == EncodeDepths(d, rest)
    ensures |m| == at + 20 + |rest| && m[at + 20..] == rest
    ensures m[at..at + 8] == BigEndian(d.sndBytes, 8) && m[at + 8..at + 16] == BigEndian(d.rcvBytes, 8)
    ensures m[at + 16..at + 18] == BigEndian(d.sndMsgs, 2) && m[at + 18..at + 20] == BigEndian(d.rcvMsgs, 2)
  {
    hide BigEndian;
    var r3 := BigEndian(d.rcvMsgs, 2) + rest;
    var r2 := BigEndian(d.sndMsgs, 2) + r3;
    var r1 := BigEndian(d.rcvBytes, 8) + r2;
    Field(m, at, BigEndian(d.sndBytes, 8), r1);
    Field(m, at + 8, BigEndian(d.rcvBytes, 8), r2);
    Field(m, at + 16, BigEndian(d.sndMsgs, 2), r3);
    Field(m, at + 18, BigEndian(d.rcvMsgs, 2), rest);
  }

  /** The request on the wire: session id, send and receive depth in bytes and in messages, the two lengths,
      the uri, the private data. */
  lemma RequestLayout(r: SetupReq)
    ensures var m, u := EncodeReq(r, []), |r.uri|;
      && |m| == 28 + u + |r.privateData|
      && m[..4] == BigEndian(r.id, 4)
      && m[4..12] == BigEndian(r.depths.sndBytes, 8) && m[12..20] == BigEndian(r.depths.rcvBytes, 8)
      && m[20..22] == BigEndian(r.depths.sndMsgs, 2) && m[22..24] == BigEndian(r.depths.rcvMsgs, 2)
      && m[24..26] == BigEndian(u, 2) && m[26..28] == BigEndian(|r.privateData|, 2)
      && m[28..28 + u] == r.uri && m[28 + u..] == r.privateData
  {
    hide BigEndian, EncodeDepths;
    var m := EncodeReq(r, []);
    var r5 := r.privateData + [];
    var r4 := r.uri + r5;
    var r3 := BigEndian(|r.privateData|, 2) + r4;
    var r2 := BigEndian(|r.uri|, 2) + r3;
    assert m[0..] == m;
    Field(m, 0, BigEndian(r.id, 4), EncodeDepths(r.depths, r2));
    DepthsLayout(m, 4, r.depths, r2);
    Field(m, 24, BigEndian(|r.uri|, 2), r3);
    Field(m, 26, BigEndian(|r.privateData|, 2), r4);
    Field(m, 28, r.uri, r5);
  }

  /** What follows the head of an ACCEPT or REDIRECT: the two counts and the strings. */
  lemma PortalsLayout(m: Bytes, at: nat, portals: seq<Bytes>, context: Bytes)
    requires at <= |m| && m[at..] == EncodePortals(portals, context, [])
    ensures at + 4 <= |m|
    ensures m[at..at + 2] == BigEndian(|portals|, 2) && m[at + 2..at + 4] == BigEndian(|context|, 2)
    ensures m[at + 4..] == EncodeStrings(portals, context)
  {
    hide BigEndian, EncodeStrings;
    assert context + [] == context;
    Field(m, at, BigEndian(|portals|, 2), BigEndian(|context|, 2) + EncodeStrings(portals, context));
    Field(m, at + 2, BigEndian(|context|, 2), EncodeStrings(portals, context));
  }

  lemma SmallNumber(v: nat)
    requires v < 256
    ensures BigEndian(v, 2) == [0, v]
  {
    assert BigEndian(v / 256, 1) == BigEndian(v / 256 / 256, 0) + [v / 256 % 256];
  }

  lemma HeadLayout(m: Bytes, id: U32, action: U16, rest: Bytes)
    requires m == BigEndian(id, 4) + (BigEndian(action, 2) + rest) && action < 256
    ensures |m| >= 6 && m[..4] == BigEndian(id, 4) && m[4..6] == [0, action] && m[6..] == rest
  {
    SmallNumber(action);
    hide BigEndian;
    assert m[0..] == m;
    Field(m, 0, BigEndian(id, 4), BigEndian(action, 2) + rest);
    Field(m, 4, BigEndian(action, 2), rest);
  }

  /** The ACCEPT on the wire: session id, action 1, the depths, the counts, the portals, the context. */
  lemma AcceptLayout(id: U32, d: Depths, portals: seq<Bytes>, context: Bytes)
    ensures var m := EncodeAccept(id, 1, d, portals, context, []);
      && |m| >= 30 && m[..4] == BigEndian(id, 4) && m[4..6] == [0, 1]
      && m[6..14] == BigEndian(d.sndBytes, 8) && m[14..22] == BigEndian(d.rcvBytes, 8)
      && m[22..24] == BigEndian(d.sndMsgs, 2) && m[24..26] == BigEndian(d.rcvMsgs, 2)
      && m[26..28] == BigEndian(|portals|, 2) && m[28..30] == BigEndian(|context|, 2)
      && m[30..] == EncodeStrings(portals, context)
  {
    hide BigEndian, EncodeDepths, EncodePortals, EncodeStrings;
    var m, tail := EncodeAccept(id, 1, d, portals, context, []), EncodePortals(portals, context, []);
    HeadLayout(m, id, 1, EncodeDepths(d, tail));
    DepthsLayout(m, 6, d, tail);
    PortalsLayout(m, 26, portals, context);
  }

  /** The REDIRECT on the wire: session id, action 2, the counts, the services, the context. */
  lemma RedirectLayout(id: U32, d: Depths, services: seq<Bytes>, context: Bytes)
    ensures var m := EncodeAccept(id, 2, d, services, context, []);
      && |m| >= 10 && m[..4] == BigEndian(id, 4) && m[4..6] == [0, 2]
      && m[6..8] == BigEndian(|services|, 2) && m[8..10] == BigEndian(|context|, 2)
      && m[10..] == EncodeStrings(services, context)
  {
    hide BigEndian, EncodeDepths, EncodePortals, EncodeStrings;
    var m := EncodeAccept(id, 2, d, services, context, []);
    HeadLayout(m, id, 2, EncodePortals(services, context, []));
    PortalsLayout(m, 6, services, context);
  }

  /** The REJECT on the wire: session id, action 3, the reason, the length, the context. */
  lemma RejectLayout(id: U32, reason: U32, context: Bytes)
    ensures var m := EncodeReject(id, reason, context, []);
      && |m| == 12 + |context| && m[..4] == BigEndian(id, 4) && m[4..6] == [0, 3]
      && m[6..10] == BigEndian(reason, 4) && m[10..12] == BigEndian(|context|, 2) && m[12..] == context
  {
    hide BigEndian;
    var m := EncodeReject(id, reason, context, []);
    var r3 := context + [];
    var r2 := BigEndian(|context|, 2) + r3;
    HeadLayout(m, id, 3, BigEndian(reason, 4) + r2);
    Field(m, 6, BigEndian(reason, 4), r2);
    Field(m, 10, BigEndian(|context|, 2), r3);
  }

  // ----- reading ---------------------------------------------------------------------------------
  // Each reader gives what it finds in memory from an address on, and the address after it.

  function U16At(mem: Memory, at: nat): U16 { BigEndianOfValue(Slice(mem, at, 2)); Value(Slice(mem, at, 2)) }

  function U32At(mem: Memory, at: nat): U32 { BigEndianOfValue(Slice(mem, at, 4)); Value(Slice(mem, at, 4)) }

  function U64At(mem: Memory, at: nat): U64 { BigEndianOfValue(Slice(mem, at, 8)); Value(Slice(mem, at, 8)) }

  function ParseDepths(mem: Memory, at: nat): Depths {
    Depths(U64At(mem, at), U64At(mem, at + 8), U16At(mem, at + 16), U16At(mem, at + 18))
  }

  function ParseReq(mem: Memory, at: nat): (SetupReq, nat) {
    var uriLen, privateLen := U16At(mem, at + 24), U16At(mem, at + 26);
    (SetupReq(U32At(mem, at), ParseDepths(mem, at + 4), Slice(mem, at + 28, uriLen),
              Slice(mem, at + 28 + uriLen, privateLen)),
     at + 28 + uriLen + privateLen)
  }

  /** `kstrndup`: up to the first NUL. */
  function UpToNul(b: Bytes): Bytes {
    if b == [] || b[0] == 0 then [] else [b[0]] + UpToNul(b[1..])
  }

  function ParseStrings(mem: Memory, at: nat, n: nat): (seq<Bytes>, nat)
    decreases n
  {
    if n == 0 then ([], at)
    else
      var len := U16At(mem, at);
      var more := ParseStrings(mem, at + 2 + len, n - 1);
      ([UpToNul(Slice(mem, at + 2, len))] + more.0, more.1)
  }

  function ParseAccept(id: U32, mem: Memory, at: nat): (SetupRsp, nat) {
    var portals := ParseStrings(mem, at + 24, U16At(mem, at + 20));
    var privateLen := U16At(mem, at + 22);
    (Accept(id, ParseDepths(mem, at), portals.0, Slice(mem, portals.1, privateLen)), portals.1 + privateLen)
  }

  function ParseRedirect(id: U32, mem: Memory, at: nat): (SetupRsp, nat) {
    var services := ParseStrings(mem, at + 4, U16At(mem, at));
    (Redirect(id, services.0, U16At(mem, at + 2)), services.1)
  }

  function ParseReject(id: U32, mem: Memory, at: nat): (SetupRsp, nat) {
    var privateLen := U16At(mem, at + 4);
    (Reject(id, U32At(mem, at), Slice(mem, at + 6, privateLen)), at + 6 + privateLen)
  }

  function ParseRsp(mem: Memory, at: nat): (SetupRsp, nat) {
    var id, action := U32At(mem, at), U16At(mem, at + 4);
    if action == ACTION_ACCEPT then ParseAccept(id, mem, at + 6)
    else if action == ACTION_REDIRECT then ParseRedirect(id, mem, at + 6)
    else if action == ACTION_REJECT then ParseReject(id, mem, at + 6)
    else (Unknown(id, action), at + 6)
  }

  // ----- reading undoes writing ------------------------------------------------------------------

  /** Memory holds the bytes `b` from address `at` on; what follows may be anything. */
  predicate Holds(mem: Memory, at: nat, b: Bytes) { Slice(mem, at, |b|) == b }

  lemma {:induction false} SliceSplit(mem: Memory, at: nat, n: nat, k: nat)
    ensures Slice(mem, at, n + k) == Slice(mem, at, n) + Slice(mem, at + n, k)
  {
    if k > 0 {
      SliceSplit(mem, at, n, k - 1);
      var x, y, z := Slice(mem, at, n), Slice(mem, at + n, k - 1), [mem(at + n + k - 1)];
      assert x + (y + z) == (x + y) + z;
    }
  }

  lemma HoldsBoth(mem: Memory, at: nat, x: Bytes, y: Bytes)
    requires Holds(mem, at, x + y)
    ensures Holds(mem, at, x) && Holds(mem, at + |x|, y)
  {
    hide Slice;
    SliceSplit(mem, at, |x|, |y|);
    var p, q := Slice(mem, at, |x|), Slice(mem, at + |x|, |y|);
    assert p == (p + q)[..|x|] && q == (p + q)[|x|..] && x == (x + y)[..|x|] && y == (x + y)[|x|..];
  }

  lemma Holds16(mem: Memory, at: nat, v: U16, rest: Bytes)
    requires Holds(mem, at, BigEndian(v, 2) + rest)
    ensures U16At(mem, at) == v && Holds(mem, at + 2, rest)
  {
    hide Holds, Slice;
    HoldsBoth(mem, at, BigEndian(v, 2), rest);
    HeldNumber(mem, at, v, 2);
    assert Power256(1) == 256 && Power256(2) == TWO16;
  }

  lemma Holds32(mem: Memory, at: nat, v: U32, rest: Bytes)
    requires Holds(mem, at, BigEndian(v, 4) + rest)
    ensures U32At(mem, at) == v && Holds(mem, at + 4, rest)
  {
    hide Holds, Slice;
    HoldsBoth(mem, at, BigEndian(v, 4), rest);
    HeldNumber(mem, at, v, 4);
    assert Power256(1) == 256 && Power256(2) == TWO16 && Power256(3) == 0x100_0000 && Power256(4) == TWO32;
  }

  lemma Holds64(mem: Memory, at: nat, v: U64, rest: Bytes)
    requires Holds(mem, at, BigEndian(v, 8) + rest)
    ensures U64At(mem, at) == v && Holds(mem, at + 8, rest)
  {
    hide Holds, Slice;
    HoldsBoth(mem, at, BigEndian(v, 8), rest);
    HeldNumber(mem, at, v, 8);
    assert Power256(1) == 256 && Power256(2) == TWO16 && Power256(3) == 0x100_0000 && Power256(4) == TWO32;
    assert Power256(5) == 0x100_0000_0000 && Power256(6) == 0x1_0000_0000_0000;
    assert Power256(7) == 0x100_0000_0000_0000 && Power256(8) == TWO64;
  }

  lemma HeldNumber(mem: Memory, at: nat, v: nat, k: nat)
    requires Holds(mem, at, BigEndian(v, k))
    ensures v < Power256(k) ==> Value(Slice(mem, at, k)) == v
  {
    ValueOfBigEndian(v, k);
  }

  lemma HoldsBytes(mem: Memory, at: nat, b: Bytes, rest: Bytes)
    requires Holds(mem, at, b + rest)
    ensures Slice(mem, at, |b|) == b && Holds(mem, at + |b|, rest)
  {
    HoldsBoth(mem, at, b, rest);
  }

  lemma DepthsRoundTrip(mem: Memory, at: nat, d: Depths, rest: Bytes)
    requires Holds(mem, at, EncodeDepths(d, rest))
    ensures ParseDepths(mem, at) == d && Holds(mem, at + 20, rest)
    ensures |EncodeDepths(d, rest)| == 20 + |rest|
  {
    hide Holds, U16At, U64At, BigEndian;
    var r3 := BigEndian(d.rcvMsgs, 2) + rest;
    var r2 := BigEndian(d.sndMsgs, 2) + r3;
    var r1 := BigEndian(d.rcvBytes, 8) + r2;
    Holds64(mem, at, d.sndBytes, r1);
    Holds64(mem, at + 8, d.rcvBytes, r2);
    Holds16(mem, at + 16, d.sndMsgs, r3);
    Holds16(mem, at + 18, d.rcvMsgs, rest);
  }

  /** What the C types allow. */
  predicate IsReq(r: SetupReq) { |r.uri| < TWO16 && |r.privateData| < TWO16 }

  /** Wherever in memory a request is, the server recovers every field of it and stops exactly at its end. */
  lemma RequestRoundTrip(mem: Memory, at: nat, r: SetupReq)
    requires IsReq(r) && Holds(mem, at, EncodeReq(r, []))
    ensures ParseReq(mem, at) == (r, at + |EncodeReq(r, [])|)
  {
    hide Holds, U16At, U32At, Slice, ParseDepths, EncodeDepths, BigEndian;
    var r5 := r.privateData + [];
    var r4 := r.uri + r5;
    var r3 := BigEndian(|r.privateData|, 2) + r4;
    var r2 := BigEndian(|r.uri|, 2) + r3;
    Holds32(mem, at, r.id, EncodeDepths(r.depths, r2));
    DepthsRoundTrip(mem, at + 4, r.depths, r2);
    Holds16(mem, at + 24, |r.uri|, r3);
    Holds16(mem, at + 26, |r.privateData|, r4);
    HoldsBytes(mem, at + 28, r.uri, r5);
    HoldsBytes(mem, at + 28 + |r.uri|, r.privateData, []);
  }

  predicate IsCString(s: Bytes) { 0 !in s }

  /** What a string comes to once its length has been cut to 16 bits. */
  function Cut(s: Bytes): Bytes { s[..StringLen(s)] }

  function CutAll(ss: seq<Bytes>): (r: seq<Bytes>)
    ensures |r| == |ss|
  {
    if ss == [] then [] else [Cut(ss[0])] + CutAll(ss[1..])
  }

  predicate AllShort(ss: seq<Bytes>) { forall s :: s in ss ==> |s| < TWO16 }

  /** A list survives if and only if every string is below 2^16 bytes. */
  lemma {:induction false} CutAllIff(ss: seq<Bytes>)
    ensures CutAll(ss) == ss <==> AllShort(ss)
  {
    if ss != [] {
      var s, more := ss[0], ss[1..];
      CutAllIff(more);
      assert ss == [s] + more && CutAll(ss)[0] == Cut(s) && CutAll(ss)[1..] == CutAll(more);
      assert Cut(s) == s <==> |s| < TWO16 by { assert |Cut(s)| == |s| % TWO16; }
    }
  }

  lemma {:induction false} NoNul(s: Bytes)
    requires 0 !in s
    ensures UpToNul(s) == s
  {
    if s != [] {
      assert s[0] in s;
      NoNul(s[1..]);
    }
  }

  /** A string read from memory ends before its first NUL, if it has one. */
  lemma {:induction false} EndsAtNul(s: Bytes, t: Bytes)
    requires 0 !in s
    ensures UpToNul(s + [0] + t) == s
  {
    if s == [] {
      assert (s + [0] + t)[0] == 0;
    } else {
      assert s[0] in s && (s + [0] + t)[0] == s[0] && (s + [0] + t)[1..] == s[1..] + [0] + t;
      EndsAtNul(s[1..], t);
    }
  }

  /** An action the client does not know is reported, and nothing behind it is read. */
  lemma UnknownAction(mem: Memory, at: nat)
    requires U16At(mem, at + 4) != 1 && U16At(mem, at + 4) != 2 && U16At(mem, at + 4) != 3
    ensures ParseRsp(mem, at) == (Unknown(U32At(mem, at), U16At(mem, at + 4)), at + 6)
  {
  }

  /** The portal loop recovers any list of C strings, each as far as its 16-bit length goes. */
  lemma {:induction false} StringsRoundTrip(mem: Memory, at: nat, ss: seq<Bytes>, rest: Bytes)
    requires (forall s :: s in ss ==> IsCString(s)) && Holds(mem, at, EncodeStrings(ss, rest))
    ensures var p := ParseStrings(mem, at, |ss|);
      p.0 == CutAll(ss) && p.1 + |rest| == at + |EncodeStrings(ss, rest)| && Holds(mem, p.1, rest)
    decreases ss
  {
    hide Holds, U16At, Slice, BigEndian, UpToNul;
    if ss != [] {
      var s, more := Cut(ss[0]), EncodeStrings(ss[1..], rest);
      assert IsCString(ss[0]) && |s| == StringLen(ss[0]);
      Holds16(mem, at, |s|, s + more);
      HoldsBytes(mem, at + 2, s, more);
      StringsRoundTrip(mem, at + 2 + |s|, ss[1..], rest);
      NoNul(s);
    }
  }

  /** What the 16-bit counts and C strings allow; a string may have any length. */
  predicate IsAnswer(portals: seq<Bytes>, context: Bytes) {
    |portals| < TWO16 && |context| < TWO16 && forall s :: s in portals ==> IsCString(s)
  }

  lemma PortalsRoundTrip(mem: Memory, at: nat, portals: seq<Bytes>, context: Bytes)
    requires IsAnswer(portals, context) && Holds(mem, at, EncodePortals(portals, context, []))
    ensures U16At(mem, at) == |portals| && U16At(mem, at + 2) == |context|
    ensures var p := ParseStrings(mem, at + 4, |portals|);
      p.0 == CutAll(portals) && p.1 + |context| == at + |EncodePortals(portals, context, [])| && Slice(mem, p.1, |context|) == context
  {
    hide Holds, U16At, Slice, ParseStrings, EncodeStrings, BigEndian;
    var r2 := EncodeStrings(portals, context + []);
    Holds16(mem, at, |portals|, BigEndian(|context|, 2) + r2);
    Holds16(mem, at + 2, |context|, r2);
    StringsRoundTrip(mem, at + 4, portals, context + []);
    HoldsBytes(mem, ParseStrings(mem, at + 4, |portals|).1, context, []);
  }

  lemma HeadRoundTrip(mem: Memory, at: nat, id: U32, action: U16, rest: Bytes)
    requires Holds(mem, at, BigEndian(id, 4) + (BigEndian(action, 2) + rest))
    ensures U32At(mem, at) == id && U16At(mem, at + 4) == action && Holds(mem, at + 6, rest)
  {
    hide Holds, U16At, U32At, BigEndian;
    Holds32(mem, at, id, BigEndian(action, 2) + rest);
    Holds16(mem, at + 4, action, rest);
  }

  /** The client recovers an ACCEPT and stops exactly at its end, but the portals only as far as they were
      written: all of them if and only if each is below 2^16 bytes. */
  lemma AcceptRoundTrip(mem: Memory, at: nat, id: U32, d: Depths, portals: seq<Bytes>, context: Bytes)
    requires IsAnswer(portals, context)
    requires Holds(mem, at, EncodeAccept(id, ACTION_ACCEPT, d, portals, context, []))
    ensures ParseRsp(mem, at)
            == (Accept(id, d, CutAll(portals), context), at + |EncodeAccept(id, ACTION_ACCEPT, d, portals, context, [])|)
    ensures ParseRsp(mem, at).0 == Accept(id, d, portals, context) <==> AllShort(portals)
  {
    hide AllShort, Holds, U16At, U32At, Slice, ParseDepths, EncodeDepths, ParseStrings, EncodePortals, BigEndian, IsAnswer;
    var tail := EncodePortals(portals, context, []);
    HeadRoundTrip(mem, at, id, ACTION_ACCEPT, EncodeDepths(d, tail));
    DepthsRoundTrip(mem, at + 6, d, tail);
    PortalsRoundTrip(mem, at + 26, portals, context);
    CutAllIff(portals);
  }

  /** The client recovers the services of a REDIRECT, likewise, and stops before the private data, so exactly at
      the end of the message only when there is none. */
  lemma RedirectRoundTrip(mem: Memory, at: nat, id: U32, d: Depths, services: seq<Bytes>, context: Bytes)
    requires IsAnswer(services, context)
    requires Holds(mem, at, EncodeAccept(id, ACTION_REDIRECT, d, services, context, []))
    ensures var end := at + |EncodeAccept(id, ACTION_REDIRECT, d, services, context, [])|;
      ParseRsp(mem, at) == (Redirect(id, CutAll(services), |context|), end - |context|)
    ensures ParseRsp(mem, at).0 == Redirect(id, services, |context|) <==> AllShort(services)
  {
    hide AllShort, Holds, U16At, U32At, Slice, ParseDepths, EncodeDepths, ParseStrings, EncodePortals, BigEndian;
    HeadRoundTrip(mem, at, id, ACTION_REDIRECT, EncodePortals(services, context, []));
    PortalsRoundTrip(mem, at + 6, services, context);
    CutAllIff(services);
  }

  /** The client recovers a REJECT and stops exactly at its end. */
  lemma RejectRoundTrip(mem: Memory, at: nat, id: U32, reason: U32, context: Bytes)
    requires |context| < TWO16 && Holds(mem, at, EncodeReject(id, reason, context, []))
    ensures ParseRsp(mem, at) == (Reject(id, reason, context), at + |EncodeReject(id, reason, context, [])|)
  {
    hide Holds, U16At, U32At, Slice, BigEndian;
    var r3 := context + [];
    var r2 := BigEndian(|context|, 2) + r3;
    var r1 := BigEndian(reason, 4) + r2;
    HeadRoundTrip(mem, at, id, ACTION_REJECT, r1);
    Holds32(mem, at + 6, reason, r2);
    Holds16(mem, at + 10, |context|, r3);
    HoldsBytes(mem, at + 12, context, []);
  }

  // ----- the length computed beforehand ----------------------------------------------------------

  /** What the portal list adds to `tot_len`, before it is cut to 16 bits. */
  function Size(ss: seq<Bytes>): nat {
    if ss == [] then 0 else |ss[0]| + 2 + Size(ss[1..])
  }

  /** `tot_len` of `xio_session_write_accept_rsp` */
  function TotLen(portals: seq<Bytes>, contextLen: nat): U16 { (30 + Size(portals) + contextLen) % TWO16 }

  lemma {:induction false} StringsLength(ss: seq<Bytes>, rest: Bytes)
    ensures Congruent16(|EncodeStrings(ss, rest)|, Size(ss) + |rest|)
  {
    if ss != [] { StringsLength(ss[1..], rest); }
  }

  /** The fields a redirect does not write are counted all the same. */
  function Overcount(action: U16): nat { if action == ACTION_ACCEPT then 0 else 20 }

  lemma AcceptLength(id: U32, action: U16, d: Depths, portals: seq<Bytes>, context: Bytes)
    ensures TotLen(portals, |context|)
            == (|EncodeAccept(id, action, d, portals, context, [])| + Overcount(action)) % TWO16
  {
    hide EncodeStrings, Size, BigEndian;
    StringsLength(portals, context + []);
  }

  /** The computed length is the written one for exactly the ACCEPT messages below 2^16 bytes, and for
      no REDIRECT. */
  lemma AcceptLengthAgrees(id: U32, action: U16, d: Depths, portals: seq<Bytes>, context: Bytes)
    ensures var written := |EncodeAccept(id, action, d, portals, context, [])|;
            TotLen(portals, |context|) == written <==> action == ACTION_ACCEPT && written < TWO16
  {
    AcceptLength(id, action, d, portals, context);
  }

  /** `tot_len` of `xio_session_write_reject_rsp` */
  function RejectTotLen(contextLen: nat): U16 { (12 + contextLen) % TWO16 }

  lemma RejectLengthAgrees(id: U32, reason: U32, context: Bytes)
    ensures var written := |EncodeReject(id, reason, context, [])|;
            && written == 12 + |context|
            && (RejectTotLen(|context|) == written <==> |context| < TWO16 - 12)
  {
  }

  /** The guard of the writers, by the length `n` of the message. */
  predicate GuardPasses(n: nat, over: nat) { (n + over) % TWO16 <= SETUP_BUFFER_LEN }

  /** For an ACCEPT or a REJECT the guard lets through exactly the messages that fit, unless the length
      wraps to a small one. */
  lemma GuardExact(n: nat)
    ensures (GuardPasses(n, 0) <==> n <= 3840) <==> (n < 0x1_0000 || n % 0x1_0000 > 3840)
  {
  }

  /** For a REDIRECT it also turns away the 20 longest that would fit. */
  lemma RedirectGuardExact(n: nat)
    ensures (GuardPasses(n, 20) <==> n <= SETUP_BUFFER_LEN)
            <==> n <= SETUP_BUFFER_LEN - 20
                 || (n > SETUP_BUFFER_LEN && (n < TWO16 - 20 || (n + 20) % TWO16 > SETUP_BUFFER_LEN))
  {
  }

  /** A REJECT with the longest context wraps: it passes the guard with 65547 bytes. */
  lemma GuardCanWrap(id: U32, reason: U32)
    ensures exists context: Bytes :: |context| < TWO16 && RejectTotLen(|context|) <= SETUP_BUFFER_LEN
                                     && |EncodeReject(id, reason, context, [])| > SETUP_BUFFER_LEN
  {
    var context: Bytes := seq(65535, i => 0);
    assert RejectTotLen(|context|) == 11;
    RejectLengthAgrees(id, reason, context);
  }

  /** An ACCEPT with one portal of 65536 bytes passes the guard, takes 32 bytes, fits the buffer, and tells
      the client of one portal with an empty name. */
  lemma LongPortalIsLost(id: U32, d: Depths) returns (portal: Bytes)
    ensures IsAnswer([portal], []) && TotLen([portal], 0) <= SETUP_BUFFER_LEN
    ensures |EncodeAccept(id, ACTION_ACCEPT, d, [portal], [], [])| == 32
    ensures CutAll([portal]) == [[]] && portal != []
    ensures forall mem: Memory, at: nat :: Holds(mem, at, EncodeAccept(id, ACTION_ACCEPT, d, [portal], [], [])) ==>
              ParseRsp(mem, at).0 == Accept(id, d, [[]], [])
  {
    portal := seq(TWO16, i => 1);
    assert [portal][1..] == [] && Size([portal]) == TWO16 + 2 && StringLen(portal) == 0;
    assert Cut(portal) == [];
    assert EncodeStrings([portal], []) == BigEndian(0, 2) + (portal[..0] + []);
    forall mem: Memory, at: nat | Holds(mem, at, EncodeAccept(id, ACTION_ACCEPT, d, [portal], [], []))
      ensures ParseRsp(mem, at).0 == Accept(id, d, [[]], [])
    {
      AcceptRoundTrip(mem, at, id, d, [portal], []);
    }
  }
}
