/** Stratum V2 frames: the incremental reader of client_session.cpp against a one-shot parse of the whole stream. */
module Sv2Framing {
  import opened LittleEndian
  import opened Numerals
  import opened Options
  import opened Sv2Codec

  const MAX_MSG_LENGTH := 65519
  const CHUNK := 4096

  datatype Header = Header(extension: nat, kind: octet, length: nat)
  datatype Message = Message(header: Header, payload: seq<octet>)

  /** A counter-nonce cipher with a 16-byte tag. */
  datatype Cipher = Cipher(seal: (nat, seq<octet>) -> seq<octet>, unseal: (nat, seq<octet>) -> Option<seq<octet>>)
  datatype Mode = Plain | Sealed(cipher: Cipher)

  /** What one side seals under a nonce the other unseals under the same nonce; the tag adds 16 bytes. */
  ghost predicate Sound(mode: Mode)
  {
    mode.Sealed? ==>
      && (forall n: nat, p: seq<octet> :: |mode.cipher.seal(n, p)| == |p| + 16)
      && (forall n: nat, p: seq<octet> :: mode.cipher.unseal(n, mode.cipher.seal(n, p)) == Some(p))
      && (forall n: nat, c: seq<octet> :: mode.cipher.unseal(n, c).Some? ==> |mode.cipher.unseal(n, c).value| + 16 == |c|)
  }

  // ---------- headers ----------

  function HeaderOf(b: seq<octet>): (h: Header)
    requires |b| == 6
  {
    Header(LEValue(b[..2]), b[2], LEValue(b[3..]))
  }

  function HeaderBytes(h: Header): (b: seq<octet>)
    ensures |b| == 6
  {
    LE(h.extension, 2) + [h.kind] + LE(h.length, 3)
  }

  lemma HeaderRoundTrip(h: Header)
    requires h.extension < 0x1_0000 && h.length < 0x100_0000
    ensures HeaderOf(HeaderBytes(h)) == h
  {
    var b := HeaderBytes(h);
    assert b[..2] == LE(h.extension, 2) && b[3..] == LE(h.length, 3);
    assert Power(256, 1) == 256 && Power(256, 2) == 0x1_0000 && Power(256, 3) == 0x100_0000;
    ValueOfLE(h.extension, 2);
    ValueOfLE(h.length, 3);
  }

  method ReadHeader(b: seq<octet>) returns (h: Header)
    requires |b| >= 6
    ensures h == HeaderOf(b[..6])
  {
    hide LEValue;
    var r := new Reader(b);
    var extension := r.ReadU16();
    var kind := r.ReadU8();
    var length := r.ReadU24();
    assert b[..6][..2] == b[0..2] && b[..6][3..] == b[3..6];
    return Header(extension.value, kind.value, length.value);
  }

  // ---------- the one-shot parse ----------

  /** Messages in order, whether the stream is refused, and what is left: a header already unsealed, bytes, the nonce. */
  datatype Parsed = Parsed(messages: seq<Message>, closed: bool, pending: Option<Header>, rest: seq<octet>, nonce: nat)

  ghost function Parse(mode: Mode, pending: Option<Header>, b: seq<octet>, nonce: nat): (p: Parsed)
    requires Sound(mode)
    decreases |b|, if pending.None? then 1 else 0
  {
    match mode
    case Plain =>
      if |b| < 6 then Parsed([], false, pending, b, nonce)
      else
        var h := HeaderOf(b[..6]);
        if h.length > MAX_MSG_LENGTH then Parsed([], true, pending, b, nonce)
        else if |b| < 6 + h.length then Parsed([], false, pending, b, nonce)
        else Then(Message(h, b[6..6 + h.length]), Parse(mode, pending, b[6 + h.length..], nonce))
    case Sealed(cipher) =>
      if pending.None? then
        if |b| < 22 then Parsed([], false, None, b, nonce)
        else if cipher.unseal(nonce, b[..22]).None? then Parsed([], true, None, b, nonce)
        else
          var h := HeaderOf(cipher.unseal(nonce, b[..22]).value);
          if h.length > MAX_MSG_LENGTH then Parsed([], true, None, b, nonce)
          else Parse(mode, Some(h), b[22..], nonce + 1)
      else
        var h := pending.value;
        if |b| < h.length + 16 then Parsed([], false, pending, b, nonce)
        else if h.length == 0 then Then(Message(h, []), Parse(mode, None, b[16..], nonce))
        else if cipher.unseal(nonce, b[..h.length + 16]).None? then Parsed([], true, pending, b, nonce)
        else Then(Message(h, cipher.unseal(nonce, b[..h.length + 16]).value), Parse(mode, None, b[h.length + 16..], nonce + 1))
  }

  function Then(m: Message, p: Parsed): Parsed
  {
    p.(messages := [m] + p.messages)
  }

  /** Bytes needed before anything more can happen. */
  function Needed(mode: Mode, pending: Option<Header>, b: seq<octet>): (n: nat)
  {
    match mode
    case Plain => if |b| < 6 then 6 else 6 + HeaderOf(b[..6]).length
    case Sealed(_) => if pending.None? then 22 else pending.value.length + 16
  }

  predicate Capped(pending: Option<Header>)
  {
    pending.Some? ==> pending.value.length <= MAX_MSG_LENGTH
  }

  /** What is left is always short of one frame, and a frame is never longer than the maximal one. */
  lemma {:induction false} RestIsShort(mode: Mode, pending: Option<Header>, b: seq<octet>, nonce: nat)
    requires Sound(mode) && Capped(pending)
    ensures var p := Parse(mode, pending, b, nonce);
      && Capped(p.pending) && (mode.Plain? ==> p.pending == pending)
      && (!p.closed ==> |p.rest| < Needed(mode, p.pending, p.rest) <= MAX_MSG_LENGTH + 22)
    decreases |b|, if pending.None? then 1 else 0
  {
    hide HeaderOf;
    match mode
    case Plain =>
      if |b| >= 6 {
        var h := HeaderOf(b[..6]);
        if h.length <= MAX_MSG_LENGTH && |b| >= 6 + h.length {
          RestIsShort(mode, pending, b[6 + h.length..], nonce);
        }
      }
    case Sealed(cipher) =>
      if pending.None? {
        if |b| >= 22 && cipher.unseal(nonce, b[..22]).Some? {
          var h := HeaderOf(cipher.unseal(nonce, b[..22]).value);
          if h.length <= MAX_MSG_LENGTH {
            RestIsShort(mode, Some(h), b[22..], nonce + 1);
          }
        }
      } else {
        var n := pending.value.length + 16;
        if |b| >= n {
          RestIsShort(mode, None, b[n..], if n == 16 then nonce else nonce + 1);
        }
      }
  }

  // ---------- cutting the stream ----------

  function Continued(messages: seq<Message>, p: Parsed): Parsed
  {
    p.(messages := messages + p.messages)
  }

  lemma ContinuedThen(m: Message, ms: seq<Message>, p: Parsed)
    ensures Then(m, Continued(ms, p)) == Continued([m] + ms, p)
  {
    assert [m] + (ms + p.messages) == [m] + ms + p.messages;
  }

  lemma Cut(a: seq<octet>, b: seq<octet>, n: nat)
    requires n <= |a|
    ensures (a + b)[..n] == a[..n] && (a + b)[n..] == a[n..] + b
  {
  }

  /** Parsing can stop at any byte and go on from what is left when more bytes arrive. */
  lemma {:induction false} MoreBytes(mode: Mode, pending: Option<Header>, a: seq<octet>, b: seq<octet>, nonce: nat)
    requires Sound(mode)
    ensures var p, q := Parse(mode, pending, a, nonce), Parse(mode, pending, a + b, nonce);
      if p.closed then q.closed && q.messages == p.messages
      else q == Continued(p.messages, Parse(mode, p.pending, p.rest + b, p.nonce))
    decreases |a|, if pending.None? then 1 else 0
  {
    match mode
    case Plain => MorePlain(mode, pending, a, b, nonce);
    case Sealed(cipher) =>
      if pending.None? {
        MoreHeader(mode, a, b, nonce);
      } else {
        MorePayload(mode, pending, a, b, nonce);
      }
  }

  lemma NothingYet(messages: seq<Message>, p: Parsed)
    requires messages == []
    ensures Continued(messages, p) == p
  {
    assert [] + p.messages == p.messages;
  }

  lemma {:induction false} MorePlain(mode: Mode, pending: Option<Header>, a: seq<octet>, b: seq<octet>, nonce: nat)
    requires Sound(mode) && mode.Plain?
    ensures var p, q := Parse(mode, pending, a, nonce), Parse(mode, pending, a + b, nonce);
      if p.closed then q.closed && q.messages == p.messages
      else q == Continued(p.messages, Parse(mode, p.pending, p.rest + b, p.nonce))
    decreases |a|
  {
    hide HeaderOf, Sound, Continued;
    var p := Parse(mode, pending, a, nonce);
    NothingYet([], Parse(mode, p.pending, p.rest + b, p.nonce));
    if |a| >= 6 {
      Cut(a, b, 6);
      var h := HeaderOf(a[..6]);
      var n := 6 + h.length;
      if h.length <= MAX_MSG_LENGTH && |a| >= n {
        Cut(a, b, n);
        MorePlain(mode, pending, a[n..], b, nonce);
        var rest := Parse(mode, pending, a[n..], nonce);
        assert (a + b)[6..n] == a[6..n];
        ContinuedThen(Message(h, a[6..n]), rest.messages, Parse(mode, rest.pending, rest.rest + b, rest.nonce));
      }
    }
  }

  lemma {:induction false} MoreHeader(mode: Mode, a: seq<octet>, b: seq<octet>, nonce: nat)
    requires Sound(mode) && mode.Sealed?
    ensures var p, q := Parse(mode, None, a, nonce), Parse(mode, None, a + b, nonce);
      if p.closed then q.closed && q.messages == p.messages
      else q == Continued(p.messages, Parse(mode, p.pending, p.rest + b, p.nonce))
    decreases |a|, 1, 0
  {
    hide HeaderOf, Then, Continued;
    var p := Parse(mode, None, a, nonce);
    NothingYet([], Parse(mode, p.pending, p.rest + b, p.nonce));
    if |a| >= 22 {
      Cut(a, b, 22);
      if mode.cipher.unseal(nonce, a[..22]).Some? {
        var h := HeaderOf(mode.cipher.unseal(nonce, a[..22]).value);
        if h.length <= MAX_MSG_LENGTH {
          MorePayload(mode, Some(h), a[22..], b, nonce + 1);
        }
      }
    }
  }

  lemma {:induction false} MorePayload(mode: Mode, pending: Option<Header>, a: seq<octet>, b: seq<octet>, nonce: nat)
    requires Sound(mode) && mode.Sealed? && pending.Some?
    ensures var p, q := Parse(mode, pending, a, nonce), Parse(mode, pending, a + b, nonce);
      if p.closed then q.closed && q.messages == p.messages
      else q == Continued(p.messages, Parse(mode, p.pending, p.rest + b, p.nonce))
    decreases |a|, 0, 0
  {
    hide HeaderOf, Continued;
    var p, n := Parse(mode, pending, a, nonce), pending.value.length + 16;
    NothingYet([], Parse(mode, p.pending, p.rest + b, p.nonce));
    if |a| >= n {
      Cut(a, b, n);
      if n == 16 {
        MoreHeader(mode, a[n..], b, nonce);
        var rest := Parse(mode, None, a[n..], nonce);
        ContinuedThen(Message(pending.value, []), rest.messages, Parse(mode, rest.pending, rest.rest + b, rest.nonce));
      } else if mode.cipher.unseal(nonce, a[..n]).Some? {
        MoreHeader(mode, a[n..], b, nonce + 1);
        var rest := Parse(mode, None, a[n..], nonce + 1);
        ContinuedThen(Message(pending.value, mode.cipher.unseal(nonce, a[..n]).value), rest.messages,
                      Parse(mode, rest.pending, rest.rest + b, rest.nonce));
      }
    }
  }

  // ---------- the session ----------

  class Session {
    const mode: Mode
    var buffer: seq<octet>
    var pending: Option<Header>
    var nonce: nat
    var closed: bool
    /** The messages handed to process_message_v2, the outstanding read, and all bytes read so far. */
    var dispatched: seq<Message>
    var asked: nat
    ghost var consumed: seq<octet>

    ghost predicate Valid()
      reads this
    {
      && Sound(mode)
      && var p := Parse(mode, None, consumed, 0);
         && closed == p.closed && dispatched == p.messages
         && (!closed ==>
              && buffer == p.rest && pending == p.pending && nonce == p.nonce
              && |buffer| < Needed(mode, pending, buffer) <= MAX_MSG_LENGTH + 22
              && asked == Least(Needed(mode, pending, buffer) - |buffer|, CHUNK))
    }

    constructor (mode: Mode)
      requires Sound(mode)
      ensures Valid() && !closed && consumed == [] && this.mode == mode && asked == if mode.Plain? then 6 else 22
    {
      this.mode := mode;
      buffer, pending, nonce, closed, dispatched, consumed := [], None, 0, false, [], [];
      asked := if mode.Plain? then 6 else 22;
    }

    /** do_read_v2: at most one buffer's worth. */
    method DoRead(n: nat)
      modifies this`asked
      ensures asked == Least(n, CHUNK)
    {
      asked := if n < CHUNK then n else CHUNK;
    }

    /**
      * A completed read. What has been dispatched is always what a one-shot parse of everything read finds,
      * and no read reaches past the frame it is for.
      */
    method OnRead(chunk: seq<octet>)
      requires Valid() && !closed && |chunk| == asked
      modifies this
      ensures Valid() && consumed == old(consumed) + chunk
      ensures |old(buffer)| + |chunk| <= Needed(mode, old(pending), old(buffer))
    {
      hide Parse, Sound, Needed;
      MoreBytes(mode, None, consumed, chunk, 0);
      RestIsShort(mode, None, consumed, 0);
      buffer := buffer + chunk;
      consumed := consumed + chunk;
      RestIsShort(mode, None, consumed, 0);
      ProcessBuffer();
    }

    /** process_v2_buffer: dispatches every complete frame in the buffer and asks for the rest of the next one. */
    method ProcessBuffer()
      requires Sound(mode) && !closed && (mode.Plain? ==> pending.None?)
      modifies this
      decreases |buffer|, 2
      ensures consumed == old(consumed)
      ensures var p := Parse(mode, old(pending), old(buffer), old(nonce));
        && closed == p.closed && dispatched == old(dispatched) + p.messages
        && (!closed ==> buffer == p.rest && pending == p.pending && nonce == p.nonce
                        && asked == Least(Needed(mode, pending, buffer) - |buffer|, CHUNK))
    {
      match mode
      case Plain => ProcessPlain();
      case Sealed(cipher) =>
        if pending.None? {
          ProcessHeader(cipher);
        } else {
          ProcessPayload(cipher);
        }
    }

    method ProcessPlain()
      requires Sound(mode) && !closed && mode.Plain? && pending.None?
      modifies this
      decreases |buffer|, 0
      ensures consumed == old(consumed)
      ensures var p := Parse(mode, old(pending), old(buffer), old(nonce));
        && closed == p.closed && dispatched == old(dispatched) + p.messages
        && (!closed ==> buffer == p.rest && pending == p.pending && nonce == p.nonce
                        && asked == Least(Needed(mode, pending, buffer) - |buffer|, CHUNK))
    {
      hide Sound, HeaderOf;
      if |buffer| < 6 {
        DoRead(6 - |buffer|);
        return;
      }
      var h := ReadHeader(buffer);
      if h.length > MAX_MSG_LENGTH {
        closed := true;
        return;
      }
      var total := 6 + h.length;
      if |buffer| < total {
        DoRead(total - |buffer|);
        return;
      }
      dispatched := dispatched + [Message(h, buffer[6..total])];
      buffer := buffer[total..];
      if buffer != [] {
        ProcessBuffer();
      } else {
        DoRead(6);
      }
    }

    method ProcessHeader(cipher: Cipher)
      requires Sound(mode) && !closed && mode == Sealed(cipher) && pending.None?
      modifies this
      decreases |buffer|, 1
      ensures consumed == old(consumed)
      ensures var p := Parse(mode, old(pending), old(buffer), old(nonce));
        && closed == p.closed && dispatched == old(dispatched) + p.messages
        && (!closed ==> buffer == p.rest && pending == p.pending && nonce == p.nonce
                        && asked == Least(Needed(mode, pending, buffer) - |buffer|, CHUNK))
    {
      hide HeaderOf;
      if |buffer| < 22 {
        DoRead(22 - |buffer|);
        return;
      }
      var plain := cipher.unseal(nonce, buffer[..22]);
      if plain.None? {
        closed := true;
        return;
      }
      nonce := nonce + 1;
      var h := ReadHeader(plain.value);
      assert plain.value[..6] == plain.value;
      if h.length > MAX_MSG_LENGTH {
        closed := true;
        return;
      }
      buffer := buffer[22..];
      pending := Some(h);
      ProcessPayload(cipher);
    }

    method ProcessPayload(cipher: Cipher)
      requires Sound(mode) && !closed && mode == Sealed(cipher) && pending.Some?
      modifies this
      decreases |buffer|, 0
      ensures consumed == old(consumed)
      ensures var p := Parse(mode, old(pending), old(buffer), old(nonce));
        && closed == p.closed && dispatched == old(dispatched) + p.messages
        && (!closed ==> buffer == p.rest && pending == p.pending && nonce == p.nonce
                        && asked == Least(Needed(mode, pending, buffer) - |buffer|, CHUNK))
    {
      hide HeaderOf;
      var h := pending.value;
      var required := h.length + 16;
      if |buffer| < required {
        DoRead(required - |buffer|);
        return;
      }
      var payload := [];
      if h.length > 0 {
        var plain := cipher.unseal(nonce, buffer[..required]);
        if plain.None? {
          closed := true;
          return;
        }
        nonce := nonce + 1;
        payload := plain.value;
      }
      buffer := buffer[required..];
      pending := None;
      dispatched := dispatched + [Message(h, payload)];
      if buffer != [] {
        ProcessBuffer();
      } else {
        DoRead(22);
      }
    }
  }

  function Least(a: int, b: int): int
  {
    if a < b then a else b
  }

  // ---------- sending ----------

  /** Message types whose payload starts with a channel id. */
  predicate IsChannelMessage(kind: octet)
  {
    0x15 <= kind <= 0x1d || 0x1f <= kind <= 0x21
  }

  function ExtensionFor(extension: nat, kind: octet): (e: nat)
    requires extension < 0x1_0000
    ensures e < 0x1_0000
  {
    if IsChannelMessage(kind) && extension < 0x8000 then extension + 0x8000 else extension
  }

  function Wrapped(extension: nat, kind: octet, payload: seq<octet>): (b: seq<octet>)
    requires extension < 0x1_0000
  {
    HeaderBytes(Header(ExtensionFor(extension, kind), kind, |payload|)) + payload
  }

  /** What send_v2_message puts on the wire; an empty sealed payload is 16 zero bytes and uses no nonce. */
  function OnWire(mode: Mode, nonce: nat, extension: nat, kind: octet, payload: seq<octet>): (r: (seq<octet>, nat))
    requires extension < 0x1_0000
  {
    var frame := Wrapped(extension, kind, payload);
    match mode
    case Plain => (frame, nonce)
    case Sealed(cipher) =>
      if payload == [] then (cipher.seal(nonce, frame[..6]) + ZeroTag(), nonce + 1)
      else (cipher.seal(nonce, frame[..6]) + cipher.seal(nonce + 1, payload), nonce + 2)
  }

  function ZeroTag(): (z: seq<octet>)
    ensures |z| == 16
  {
    [0, 0, 0, 0, 0, 0, 0, 0, 0, 0, 0, 0, 0, 0, 0, 0]
  }

  class Sender {
    const mode: Mode
    var nonce: nat

    constructor (mode: Mode)
      ensures this.mode == mode && nonce == 0
    {
      this.mode := mode;
      nonce := 0;
    }

    method WrapMessage(extension: nat, kind: octet, payload: seq<octet>) returns (frame: seq<octet>)
      requires extension < 0x1_0000 && |payload| < 0x1_0000_0000
      ensures frame == Wrapped(extension, kind, payload)
    {
      hide LE;
      var w := new Writer();
      w.WriteU16(ExtensionFor(extension, kind));
      w.WriteU8(kind);
      w.WriteU24(|payload|);
      w.Append(payload);
      OneByte(kind);
      frame := w.buf;
    }

    method SendMessage(extension: nat, kind: octet, payload: seq<octet>) returns (sent: seq<octet>)
      requires extension < 0x1_0000 && |payload| < 0x1_0000_0000
      modifies this
      ensures (sent, nonce) == OnWire(mode, old(nonce), extension, kind, payload)
    {
      hide Wrapped;
      var frame := WrapMessage(extension, kind, payload);
      WrappedParts(extension, kind, payload);
      match mode
      case Plain => sent := frame;
      case Sealed(cipher) =>
        sent := cipher.seal(nonce, frame[..6]);
        nonce := nonce + 1;
        if |frame| > 6 {
          sent := sent + cipher.seal(nonce, frame[6..]);
          nonce := nonce + 1;
        } else {
          sent := sent + ZeroTag();
        }
    }
  }

  lemma WrappedParts(extension: nat, kind: octet, payload: seq<octet>)
    requires extension < 0x1_0000
    ensures var b := Wrapped(extension, kind, payload);
      |b| == 6 + |payload| && b[..6] == HeaderBytes(Header(ExtensionFor(extension, kind), kind, |payload|)) && b[6..] == payload
  {
  }

  /**
    * The bytes of a frame: extension type and length with the low byte first, the message type between them; the top bit
    * of the extension type is set exactly for the twelve messages that belong to a channel.
    */
  lemma FrameLayout(extension: nat, kind: octet, payload: seq<octet>)
    requires extension < 0x1_0000 && |payload| < 0x100_0000
    ensures var b := Wrapped(extension, kind, payload);
      var ofChannel := kind in {0x15, 0x16, 0x17, 0x18, 0x19, 0x1a, 0x1b, 0x1c, 0x1d, 0x1f, 0x20, 0x21};
      && |b| == 6 + |payload| && b[6..] == payload && b[2] == kind
      && b[0] + 256 * b[1] as int == (if ofChannel then 0x8000 + extension % 0x8000 else extension)
      && b[3] + 256 * b[4] as int + 0x1_0000 * b[5] as int == |payload|
  {
    hide LE, LEValue, Wrapped;
    var e := ExtensionFor(extension, kind);
    var h := HeaderBytes(Header(e, kind, |payload|));
    WrappedParts(extension, kind, payload);
    ValueOfTwo(e);
    ValueOfThree(|payload|);
    var x, y := LE(e, 2), LE(|payload|, 3);
    assert h == x + [kind] + y;
    LowFirst(x[0], x[1], 0, 0);
    LowFirst(y[0], y[1], y[2], 0);
    assert x == [x[0], x[1]] && y == [y[0], y[1], y[2]];
    assert Wrapped(extension, kind, payload)[..6] == h;
    SameHead(Wrapped(extension, kind, payload), h);
  }

  lemma SameHead(b: seq<octet>, h: seq<octet>)
    requires |h| == 6 <= |b| && b[..6] == h
    ensures b[0] == h[0] && b[1] == h[1] && b[2] == h[2] && b[3] == h[3] && b[4] == h[4] && b[5] == h[5]
  {
  }

  lemma ValueOfTwo(v: nat)
    requires v < 0x1_0000
    ensures LEValue(LE(v, 2)) == v
  {
    assert Power(256, 1) == 256 && Power(256, 2) == 0x1_0000;
    ValueOfLE(v, 2);
  }

  lemma ValueOfThree(v: nat)
    requires v < 0x100_0000
    ensures LEValue(LE(v, 3)) == v
  {
    assert Power(256, 1) == 256 && Power(256, 2) == 0x1_0000 && Power(256, 3) == 0x100_0000;
    ValueOfLE(v, 3);
  }

  /** An empty sealed message is a sealed header and sixteen zero bytes. */
  lemma EmptyOnWire(mode: Mode, nonce: nat, extension: nat, kind: octet)
    requires Sound(mode) && mode.Sealed? && extension < 0x1_0000
    ensures var (b, next) := OnWire(mode, nonce, extension, kind, []);
      next == nonce + 1 && |b| == 38 && b[22..] == [0, 0, 0, 0, 0, 0, 0, 0, 0, 0, 0, 0, 0, 0, 0, 0]
  {
    WrappedParts(extension, kind, []);
    SealedHeader(mode, nonce, Wrapped(extension, kind, [])[..6]);
  }

  /** Receiving undoes sending for one message of legal length, in front of anything, and the nonces stay in step. */
  lemma ReceiveUndoesSend(mode: Mode, nonce: nat, extension: nat, kind: octet, payload: seq<octet>, more: seq<octet>)
    requires Sound(mode) && extension < 0x1_0000 && |payload| <= MAX_MSG_LENGTH
    ensures var (sent, next) := OnWire(mode, nonce, extension, kind, payload);
      var m := Message(Header(ExtensionFor(extension, kind), kind, |payload|), payload);
      Parse(mode, None, sent + more, nonce) == Then(m, Parse(mode, None, more, next))
  {
    hide Wrapped, HeaderOf, HeaderBytes, Sound, ExtensionFor, Parse, Then;
    var h := Header(ExtensionFor(extension, kind), kind, |payload|);
    WrappedParts(extension, kind, payload);
    HeaderRoundTrip(h);
    match mode
    case Plain =>
      var frame := Wrapped(extension, kind, payload);
      assert frame == frame[..6] + frame[6..];
      PlainUndoes(mode, nonce, h, payload, more);
    case Sealed(cipher) => SealedUndoes(mode, nonce, h, payload, more);
  }

  lemma PlainUndoes(mode: Mode, nonce: nat, h: Header, payload: seq<octet>, more: seq<octet>)
    requires Sound(mode) && mode.Plain? && h.length == |payload| <= MAX_MSG_LENGTH && HeaderOf(HeaderBytes(h)) == h
    ensures Parse(mode, None, HeaderBytes(h) + payload + more, nonce) == Then(Message(h, payload), Parse(mode, None, more, nonce))
  {
    hide HeaderOf, HeaderBytes, Sound, Then;
    Cut(HeaderBytes(h), payload + more, 6);
    assert HeaderBytes(h) + payload + more == HeaderBytes(h) + (payload + more);
    Cut(HeaderBytes(h) + payload, more, 6 + |payload|);
    assert (HeaderBytes(h) + payload)[6..] == payload;
  }

  lemma SealedUndoes(mode: Mode, nonce: nat, h: Header, payload: seq<octet>, more: seq<octet>)
    requires Sound(mode) && mode.Sealed? && h.length == |payload| <= MAX_MSG_LENGTH && HeaderOf(HeaderBytes(h)) == h
    ensures var head := mode.cipher.seal(nonce, HeaderBytes(h));
      var body := if payload == [] then ZeroTag() else mode.cipher.seal(nonce + 1, payload);
      Parse(mode, None, head + body + more, nonce)
      == Then(Message(h, payload), Parse(mode, None, more, if payload == [] then nonce + 1 else nonce + 2))
  {
    hide HeaderOf, HeaderBytes, Sound, Then, ZeroTag;
    var head := mode.cipher.seal(nonce, HeaderBytes(h));
    var body := if payload == [] then ZeroTag() else mode.cipher.seal(nonce + 1, payload);
    SealedHeader(mode, nonce, HeaderBytes(h));
    assert head + body + more == head + (body + more);
    HeaderUnsealed(mode, nonce, head, body + more);
    PayloadUndoes(mode, nonce + 1, h, payload, body, more);
  }

  /** Reading a sealed header of legal length */
  lemma HeaderUnsealed(mode: Mode, nonce: nat, head: seq<octet>, rest: seq<octet>)
    requires Sound(mode) && mode.Sealed? && |head| == 22 && mode.cipher.unseal(nonce, head).Some?
    ensures var h := HeaderOf(mode.cipher.unseal(nonce, head).value);
      h.length <= MAX_MSG_LENGTH ==> Parse(mode, None, head + rest, nonce) == Parse(mode, Some(h), rest, nonce + 1)
  {
    hide HeaderOf, Then;
    Cut(head, rest, 22);
  }

  lemma PayloadUndoes(mode: Mode, nonce: nat, h: Header, payload: seq<octet>, body: seq<octet>, more: seq<octet>)
    requires Sound(mode) && mode.Sealed? && h.length == |payload|
    requires body == if payload == [] then ZeroTag() else mode.cipher.seal(nonce, payload)
    ensures Parse(mode, Some(h), body + more, nonce)
         == Then(Message(h, payload), Parse(mode, None, more, if payload == [] then nonce else nonce + 1))
  {
    hide Then, HeaderOf;
    Cut(body, more, |body|);
  }

  /** An oversized message is refused by its header, sealed or not and under any nonce. */
  lemma OversizedRefused(mode: Mode, nonce: nat, extension: nat, kind: octet, payload: seq<octet>, more: seq<octet>)
    requires Sound(mode) && extension < 0x1_0000 && MAX_MSG_LENGTH < |payload| < 0x100_0000
    ensures var b := OnWire(mode, nonce, extension, kind, payload).0 + more;
      Parse(mode, None, b, nonce) == Parsed([], true, None, b, nonce)
  {
    hide Wrapped, HeaderOf, HeaderBytes, ExtensionFor;
    var h := Header(ExtensionFor(extension, kind), kind, |payload|);
    WrappedParts(extension, kind, payload);
    HeaderRoundTrip(h);
    match mode
    case Plain => Cut(Wrapped(extension, kind, payload), more, 6);
    case Sealed(cipher) =>
      SealedHeader(mode, nonce, HeaderBytes(h));
      assert OnWire(mode, nonce, extension, kind, payload).0 + more
          == cipher.seal(nonce, HeaderBytes(h)) + (cipher.seal(nonce + 1, payload) + more);
      Cut(cipher.seal(nonce, HeaderBytes(h)), cipher.seal(nonce + 1, payload) + more, 22);
  }

  lemma SealedHeader(mode: Mode, nonce: nat, header: seq<octet>)
    requires Sound(mode) && mode.Sealed? && |header| == 6
    ensures |mode.cipher.seal(nonce, header)| == 22 && mode.cipher.unseal(nonce, mode.cipher.seal(nonce, header)) == Some(header)
  {
  }

  // ---------- whole conversations ----------

  datatype Outgoing = Outgoing(extension: nat, kind: octet, payload: seq<octet>)

  predicate Legal(m: Outgoing)
  {
    m.extension < 0x1_0000 && |m.payload| <= MAX_MSG_LENGTH
  }

  function SentAll(mode: Mode, nonce: nat, ms: seq<Outgoing>): (r: (seq<octet>, nat))
    requires forall i | 0 <= i < |ms| :: Legal(ms[i])
    decreases |ms|
  {
    if ms == [] then ([], nonce)
    else
      assert Legal(ms[0]);
      var (first, n) := OnWire(mode, nonce, ms[0].extension, ms[0].kind, ms[0].payload);
      var (rest, last) := SentAll(mode, n, ms[1..]);
      (first + rest, last)
  }

  function Arriving(ms: seq<Outgoing>): (r: seq<Message>)
    requires forall i | 0 <= i < |ms| :: Legal(ms[i])
    ensures |r| == |ms|
  {
    seq(|ms|, i requires 0 <= i < |ms| => Arrives(ms[i]))
  }

  function Arrives(m: Outgoing): Message
    requires Legal(m)
  {
    Message(Header(ExtensionFor(m.extension, m.kind), m.kind, |m.payload|), m.payload)
  }

  /** Any conversation of legal messages arrives complete and in order, and both nonce counters agree at its end. */
  lemma {:induction false} ConversationArrives(mode: Mode, nonce: nat, ms: seq<Outgoing>)
    requires Sound(mode) && forall i | 0 <= i < |ms| :: Legal(ms[i])
    ensures Parse(mode, None, SentAll(mode, nonce, ms).0, nonce)
         == Parsed(Arriving(ms), false, None, [], SentAll(mode, nonce, ms).1)
    decreases |ms|
  {
    hide OnWire, Sound;
    if ms == [] {
      assert Arriving(ms) == [];
    } else {
      hide Parse;
      var m := ms[0];
      var (first, n) := OnWire(mode, nonce, m.extension, m.kind, m.payload);
      ConversationArrives(mode, n, ms[1..]);
      ReceiveUndoesSend(mode, nonce, m.extension, m.kind, m.payload, SentAll(mode, n, ms[1..]).0);
      assert Arriving(ms) == [Arrives(m)] + Arriving(ms[1..]);
    }
  }
}
