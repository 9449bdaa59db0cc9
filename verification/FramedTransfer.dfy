/** The framed file transfer (Test_Code/tcpFTclient.c, Test_Code/tcpFTserver.c): a 32-bit name
    length, the name, a 64-bit size and the file, with numbers in network byte order, sent and
    received piecewise.

    First the frame format and the server's reading of it, then client, connection and server as one
    transition system in which each send and receive moves any number of bytes, and last the loops of
    both programs. */
module FramedTransfer {
  import opened Common
  import opened Network

  const BUF: nat := 10240
  const MAX_NAME: nat := 4096

  // ---------------------------------------------------------------------------------------------
  // Numbers in network byte order
  // ---------------------------------------------------------------------------------------------

  function Pow256(k: nat): (p: nat)
    ensures p > 0
  {
    if k == 0 then 1 else 256 * Pow256(k - 1)
  }

  /** The k low-order bytes of n, most significant first. */
  function BigEndian(n: nat, k: nat): (r: Bytes)
    ensures |r| == k
  {
    if k == 0 then [] else BigEndian(n / 256, k - 1) + [n % 256]
  }

  function FromBigEndian(s: Bytes): (n: nat)
    ensures n < Pow256(|s|)
  {
    if s == [] then 0 else 256 * FromBigEndian(s[..|s| - 1]) + Last(s)
  }

  lemma {:induction false} NumberRoundTrip(n: nat, k: nat)
    requires n < Pow256(k)
    ensures FromBigEndian(BigEndian(n, k)) == n
  {
    if k > 0 {
      NumberRoundTrip(n / 256, k - 1);
      assert BigEndian(n, k)[..k - 1] == BigEndian(n / 256, k - 1);
    }
  }

  lemma {:induction false} BytesRoundTrip(s: Bytes)
    ensures BigEndian(FromBigEndian(s), |s|) == s
  {
    if s != [] {
      BytesRoundTrip(s[..|s| - 1]);
      assert FromBigEndian(s) / 256 == FromBigEndian(s[..|s| - 1]);
    }
  }

  lemma Powers()
    ensures Pow256(4) == 0x1_0000_0000 && Pow256(8) == 0x1_0000_0000_0000_0000
  {
  }

  lemma TakeLastByte(q: nat, low: nat)
    ensures (256 * q + low) / 256 == q + low / 256 && (256 * q + low) % 256 == low % 256
  {
  }

  lemma TimesByte(a: nat, p: nat)
    ensures a * (256 * p) == 256 * (a * p)
  {
  }

  lemma {:induction false} HalvesApart(high: nat, low: nat, k: nat)
    requires low < Pow256(k)
    ensures BigEndian(high * Pow256(k) + low, 4 + k) == BigEndian(high, 4) + BigEndian(low, k)
  {
    if k > 0 {
      var q := high * Pow256(k - 1);
      TimesByte(high, Pow256(k - 1));
      TakeLastByte(q, low);
      HalvesApart(high, low / 256, k - 1);
      assert high * Pow256(k) + low == 256 * q + low;
      assert BigEndian(256 * q + low, 4 + k) == BigEndian(q + low / 256, 3 + k) + [low % 256];
    }
  }

  /** The first byte weighs most, and the others are a number of their own. */
  lemma {:induction false} FirstByteWeighsMost(b: byte, s: Bytes)
    ensures FromBigEndian([b] + s) == b * Pow256(|s|) + FromBigEndian(s)
  {
    var all := [b] + s;
    if s == [] {
      assert all[..0] == [];
    } else {
      FirstByteWeighsMost(b, s[..|s| - 1]);
      assert all[..|all| - 1] == [b] + s[..|s| - 1] && Last(all) == Last(s);
      TimesByte(b, Pow256(|s| - 1));
    }
  }

  /** The four bytes in which a length travels. */
  lemma FourBytes(n: nat)
    requires n < 0x1_0000_0000
    ensures BigEndian(n, 4) == [n / 0x100_0000, n / 0x1_0000 % 256, n / 0x100 % 256, n % 256]
  {
    var a := n / 256;
    var b := a / 256;
    var c := b / 256;
    assert BigEndian(n, 4) == BigEndian(a, 3) + [n % 256];
    assert BigEndian(a, 3) == BigEndian(b, 2) + [a % 256];
    assert BigEndian(b, 2) == BigEndian(c, 1) + [b % 256];
    assert BigEndian(c, 1) == [] + [c % 256];
    assert n == 256 * a + n % 256 && a == 256 * b + a % 256 && b == 256 * c + b % 256 && c < 256;
  }

  /** A number that fits eight bytes is its upper half and its lower half, four bytes each. */
  lemma EightBytes(n: nat)
    requires n < 0x1_0000_0000_0000_0000
    ensures BigEndian(n, 8) == BigEndian(n / 0x1_0000_0000, 4) + BigEndian(n % 0x1_0000_0000, 4)
  {
    HalvesApart(n / 0x1_0000_0000, n % 0x1_0000_0000, 4);
    Powers();
  }

  // ---------------------------------------------------------------------------------------------
  // Frames
  // ---------------------------------------------------------------------------------------------

  function Header(nameLength: nat, name: Bytes, size: nat): Bytes {
    BigEndian(nameLength, 4) + name + BigEndian(size, 8)
  }

  /** What the client sends.  The length travels as 32 bits, the size as 64. */
  function Frame(name: Bytes, body: Bytes): Bytes {
    Header(|name|, name, |body|) + body
  }

  /** The transfers the programs are for: a name the server accepts and a size that fits. */
  predicate Sendable(name: Bytes, body: Bytes) {
    1 <= |name| <= MAX_NAME && |body| < Pow256(8)
  }

  /** The frame byte by byte: four of the name's length, the name, eight of the file's size, the file. */
  lemma FrameLayout(name: Bytes, body: Bytes)
    requires |name| < 0x1_0000_0000 && |body| < 0x1_0000_0000_0000_0000
    ensures var n, high, low := |name|, |body| / 0x1_0000_0000, |body| % 0x1_0000_0000;
            Frame(name, body)
            == [n / 0x100_0000, n / 0x1_0000 % 256, n / 0x100 % 256, n % 256] + name
               + [high / 0x100_0000, high / 0x1_0000 % 256, high / 0x100 % 256, high % 256]
               + [low / 0x100_0000, low / 0x1_0000 % 256, low / 0x100 % 256, low % 256] + body
  {
    FourBytes(|name|);
    EightBytes(|body|);
    FourBytes(|body| / 0x1_0000_0000);
    FourBytes(|body| % 0x1_0000_0000);
  }

  datatype Parsed = Short | BadName | Complete(name: Bytes, body: Bytes, rest: Bytes)

  /** What the server makes of a stream that ends after s. */
  function Parse(s: Bytes): Parsed {
    if |s| < 4 then Short
    else
      var n := FromBigEndian(s[..4]);
      if n == 0 || n > MAX_NAME then BadName
      else if |s| < n + 12 then Short
      else
        var size := FromBigEndian(s[n + 4..n + 12]);
        if |s| < n + 12 + size then Short
        else Complete(s[4..n + 4], s[n + 12..n + 12 + size], s[n + 12 + size..])
  }

  /** Parsing a frame, whatever follows it, gives back exactly its name, its body and what follows. */
  lemma ParseFrame(name: Bytes, body: Bytes, rest: Bytes)
    requires Sendable(name, body)
    ensures Parse(Frame(name, body) + rest) == Complete(name, body, rest)
  {
    Powers();
    var s, n := Frame(name, body) + rest, |name|;
    NumberRoundTrip(n, 4);
    NumberRoundTrip(|body|, 8);
    assert s[..4] == BigEndian(n, 4);
    assert s[n + 4..n + 12] == BigEndian(|body|, 8);
    assert s[4..n + 4] == name;
    assert s[n + 12..n + 12 + |body|] == body;
    assert s[n + 12 + |body|..] == rest;
  }

  /** Whatever the server accepts is a frame followed by the rest. */
  lemma FrameParse(s: Bytes)
    requires Parse(s).Complete?
    ensures var p := Parse(s);
            Sendable(p.name, p.body) && s == Frame(p.name, p.body) + p.rest
  {
    var p, n := Parse(s), FromBigEndian(s[..4]);
    BytesRoundTrip(s[..4]);
    BytesRoundTrip(s[n + 4..n + 12]);
    assert s == s[..4] + s[4..n + 4] + s[n + 4..n + 12] + p.body + p.rest;
  }

  /** The encoding is injective and self-delimiting. */
  lemma FramesAreUnambiguous(name: Bytes, body: Bytes, rest: Bytes, name': Bytes, body': Bytes, rest': Bytes)
    requires Sendable(name, body) && Sendable(name', body')
    requires Frame(name, body) + rest == Frame(name', body') + rest'
    ensures name == name' && body == body' && rest == rest'
  {
    ParseFrame(name, body, rest);
    ParseFrame(name', body', rest');
  }

  /** What is accepted stays accepted when more follows. */
  lemma AcceptedExtends(p: Bytes, more: Bytes)
    requires Parse(p).Complete?
    ensures var q := Parse(p); Parse(p + more) == Complete(q.name, q.body, q.rest + more)
  {
    FrameParse(p);
    var q := Parse(p);
    assert p + more == Frame(q.name, q.body) + (q.rest + more);
    ParseFrame(q.name, q.body, q.rest + more);
  }

  /** No proper prefix of a frame is accepted, nor taken for a bad name: the server waits for more. */
  lemma ProperPrefixIsShort(name: Bytes, body: Bytes, p: Bytes)
    requires Sendable(name, body) && p < Frame(name, body)
    ensures Parse(p) == Short
  {
    var s := Frame(name, body);
    var more := s[|p|..];
    assert p + more == s && s + [] == s;
    ParseFrame(name, body, []);
    if Parse(p).Complete? {
      AcceptedExtends(p, more);
    } else if |p| >= 4 {
      assert p[..4] == s[..4];
    }
  }

  /** A name the server does not take is refused on the length alone. */
  lemma BadNameIsRefused(name: Bytes, size: nat, rest: Bytes)
    requires |name| < Pow256(4)
    ensures Parse(Header(|name|, name, size) + rest).BadName? <==> !(1 <= |name| <= 4096)
  {
    var s := Header(|name|, name, size) + rest;
    NumberRoundTrip(|name|, 4);
    assert s[..4] == BigEndian(|name|, 4);
  }

  // ---------------------------------------------------------------------------------------------
  // Client, connection and server, moving any number of bytes at a time
  // ---------------------------------------------------------------------------------------------

  /** Where the server stands; acc is the part of the current recv_all received so far. */
  datatype Server =
    | ReadLength(acc: Bytes)
    | ReadName(length: nat, acc: Bytes)
    | ReadSize(name: Bytes, acc: Bytes)
    | ReadBody(name: Bytes, size: nat, got: nat, acc: Bytes)
    | Finished(name: Bytes, size: nat)
    | Died

  /** unsent is what the client has still to hand over; file is what the server has written. */
  datatype State = State(unsent: Bytes, closed: bool, wire: Bytes, server: Server, file: Bytes)

  datatype Event =
    | ClientSends(k: nat)
    | ClientCloses
    | ClientDies
    | ServerReceives(k: nat)
    | ServerSeesEnd
    | ServerFails

  function Start(name: Bytes, body: Bytes): State {
    State(Frame(name, body), false, [], ReadLength([]), [])
  }

  function Want(size: nat, got: nat): nat
    requires got <= size
  {
    if size - got > BUF then BUF else size - got
  }

  /** How many bytes the current recv_all asks for in all. */
  function Asked(r: Server): int {
    match r
    case ReadLength(_) => 4
    case ReadName(length, _) => length
    case ReadSize(_, _) => 8
    case ReadBody(_, size, got, _) => if got <= size then Want(size, got) else 0
    case _ => 0
  }

  predicate Reading(r: Server) {
    !r.Finished? && !r.Died?
  }

  /** The server goes on as soon as its current recv_all is complete. */
  function Advance(s: State): State {
    match s.server
    case ReadLength(acc) =>
      if |acc| < 4 then s
      else
        var n := FromBigEndian(acc);
        s.(server := if n == 0 || n > MAX_NAME then Died else ReadName(n, []))
    case ReadName(length, acc) =>
      if |acc| < length then s else s.(server := ReadSize(acc, []))
    case ReadSize(name, acc) =>
      if |acc| < 8 then s
      else
        var size := FromBigEndian(acc);
        s.(server := if size == 0 then Finished(name, 0) else ReadBody(name, size, 0, []))
    case ReadBody(name, size, got, acc) =>
      if |acc| < Asked(s.server) then s
      else s.(file := s.file + acc,
              server := if got + |acc| < size then ReadBody(name, size, got + |acc|, []) else Finished(name, size))
    case _ => s
  }

  function Extend(r: Server, more: Bytes): Server
    requires Reading(r)
  {
    r.(acc := r.acc + more)
  }

  function Apply(s: State, e: Event): State {
    match e
    case ClientSends(k) =>
      if s.closed || k == 0 || k > |s.unsent| then s
      else s.(unsent := s.unsent[k..], wire := s.wire + s.unsent[..k])
    case ClientCloses =>
      if s.unsent == [] then s.(closed := true) else s
    case ClientDies => s.(closed := true)
    case ServerReceives(k) =>
      if !Reading(s.server) || k == 0 || k > |s.wire| || k > Asked(s.server) - |s.server.acc| then s
      else Advance(s.(wire := s.wire[k..], server := Extend(s.server, s.wire[..k])))
    case ServerSeesEnd =>
      if Reading(s.server) && s.closed && s.wire == [] then s.(server := Died) else s
    case ServerFails =>
      if Reading(s.server) then s.(server := Died) else s
  }

  function Run(name: Bytes, body: Bytes, es: seq<Event>): State {
    if es == [] then Start(name, body) else Apply(Run(name, body, es[..|es| - 1]), Last(es))
  }

  /** Everything the server has received so far, in the order it came. */
  function Consumed(r: Server, file: Bytes): Bytes {
    match r
    case ReadLength(acc) => acc
    case ReadName(length, acc) => BigEndian(length, 4) + acc
    case ReadSize(name, acc) => BigEndian(|name|, 4) + name + acc
    case ReadBody(name, size, got, acc) => Header(|name|, name, size) + file + acc
    case Finished(name, size) => Header(|name|, name, size) + file
    case Died => []
  }

  /** What the server holds agrees with what it is being sent, and its loop is within bounds. */
  ghost predicate OnTrack(r: Server, name: Bytes, body: Bytes, file: Bytes) {
    && (Reading(r) ==> |r.acc| < Asked(r))
    && match r
       case ReadLength(_) => file == []
       case ReadName(length, _) => file == [] && 1 <= length <= MAX_NAME && length == |name|
       case ReadSize(n, _) => file == [] && n == name
       case ReadBody(n, size, got, _) =>
         n == name && size == |body| && got == |file| < size && 1 <= Want(size, got) == Min(10240, size - got)
       case Finished(n, size) => n == name && size == |body| == |file|
       case Died => true
  }

  /** No byte is lost, made up or reordered; and the file is always a prefix of the client's. */
  ghost predicate Conserved(s: State, name: Bytes, body: Bytes) {
    && OnTrack(s.server, name, body, s.file)
    && s.file <= body
    && (s.server != Died ==> Consumed(s.server, s.file) + s.wire + s.unsent == Frame(name, body))
  }

  /** The transfers a client can start: a path name and a file a 32-bit and a 64-bit number can count. */
  predicate Countable(name: Bytes, body: Bytes) {
    |name| < Pow256(4) && |body| < Pow256(8)
  }

  /** Two ways of cutting the same bytes at the same place give the same parts. */
  lemma SameCut(a: Bytes, b: Bytes, x: Bytes, y: Bytes)
    requires a + b == x + y && |a| == |x|
    ensures a == x && b == y
  {
    assert a == (a + b)[..|a|] && x == (x + y)[..|a|];
    assert b == (a + b)[|a|..] && y == (x + y)[|a|..];
  }

  lemma FrameStart(name: Bytes, body: Bytes, length: Bytes, tail: Bytes)
    requires length == BigEndian(|name|, 4) && tail == name + BigEndian(|body|, 8) + body
    ensures Frame(name, body) == length + tail
  {
  }

  lemma LengthRead(name: Bytes, body: Bytes, acc: Bytes, rest: Bytes)
    requires Countable(name, body) && |acc| == 4 && acc + rest == Frame(name, body)
    ensures acc == BigEndian(|name|, 4) && FromBigEndian(acc) == |name|
  {
    var length, tail := BigEndian(|name|, 4), name + BigEndian(|body|, 8) + body;
    FrameStart(name, body, length, tail);
    SameCut(acc, rest, length, tail);
    NumberRoundTrip(|name|, 4);
  }

  lemma NameRead(name: Bytes, body: Bytes, acc: Bytes, rest: Bytes)
    requires |acc| == |name| && BigEndian(|name|, 4) + acc + rest == Frame(name, body)
    ensures acc == name
  {
    var x := BigEndian(|name|, 4);
    assert Frame(name, body) == (x + name) + (BigEndian(|body|, 8) + body);
    SameCut(x + acc, rest, x + name, BigEndian(|body|, 8) + body);
    SameCut(x, acc, x, name);
  }

  lemma SizeRead(name: Bytes, body: Bytes, acc: Bytes, rest: Bytes)
    requires Countable(name, body) && |acc| == 8 && BigEndian(|name|, 4) + name + acc + rest == Frame(name, body)
    ensures acc == BigEndian(|body|, 8) && FromBigEndian(acc) == |body| && rest == body
  {
    NumberRoundTrip(|body|, 8);
    var x := BigEndian(|name|, 4) + name;
    SameCut(x + acc, rest, Header(|name|, name, |body|), body);
    SameCut(x, acc, x, BigEndian(|body|, 8));
  }

  lemma BodyRead(name: Bytes, body: Bytes, file: Bytes, rest: Bytes)
    requires Header(|name|, name, |body|) + file + rest == Frame(name, body)
    ensures file + rest == body
  {
    var h := Header(|name|, name, |body|);
    assert h + file + rest == h + (file + rest);
    SameCut(h, file + rest, h, body);
  }

  /** The current recv_all is complete, and all is well so far. */
  ghost predicate Full(s: State, name: Bytes, body: Bytes) {
    && Countable(name, body)
    && Reading(s.server) && |s.server.acc| == Asked(s.server)
    && OnTrack(s.server.(acc := []), name, body, s.file) && s.file <= body
    && Consumed(s.server, s.file) + (s.wire + s.unsent) == Frame(name, body)
  }

  /** Conserved, from where the server has got to. */
  lemma ArrivedAt(s: State, r: Server, file: Bytes, name: Bytes, body: Bytes)
    requires OnTrack(r, name, body, file) && file <= body
    requires r != Died ==> Consumed(r, file) + (s.wire + s.unsent) == Frame(name, body)
    ensures Conserved(s.(server := r, file := file), name, body)
  {
  }

  lemma AdvanceLength(s: State, name: Bytes, body: Bytes)
    requires Full(s, name, body) && s.server.ReadLength?
    ensures Conserved(Advance(s), name, body)
  {
    var acc := s.server.acc;
    LengthRead(name, body, acc, s.wire + s.unsent);
    assert acc + [] == acc;
    ArrivedAt(s, Advance(s).server, s.file, name, body);
  }

  lemma AdvanceName(s: State, name: Bytes, body: Bytes)
    requires Full(s, name, body) && s.server.ReadName?
    ensures Conserved(Advance(s), name, body)
  {
    NameRead(name, body, s.server.acc, s.wire + s.unsent);
    assert BigEndian(|name|, 4) + name + [] == BigEndian(|name|, 4) + name;
    ArrivedAt(s, ReadSize(name, []), s.file, name, body);
  }

  lemma AdvanceSize(s: State, name: Bytes, body: Bytes)
    requires Full(s, name, body) && s.server.ReadSize?
    ensures Conserved(Advance(s), name, body)
  {
    SizeRead(name, body, s.server.acc, s.wire + s.unsent);
    var h := Header(|name|, name, |body|);
    assert h + [] + [] == h && h + [] == h;
    ArrivedAt(s, Advance(s).server, s.file, name, body);
  }

  lemma AdvanceHeader(s: State, name: Bytes, body: Bytes)
    requires Full(s, name, body) && !s.server.ReadBody?
    ensures Conserved(Advance(s), name, body)
  {
    match s.server
    case ReadLength(_) => AdvanceLength(s, name, body);
    case ReadName(_, _) => AdvanceName(s, name, body);
    case ReadSize(_, _) => AdvanceSize(s, name, body);
  }

  lemma AdvanceBody(s: State, name: Bytes, body: Bytes)
    requires Full(s, name, body) && s.server.ReadBody?
    ensures Conserved(Advance(s), name, body)
  {
    var rest, acc := s.wire + s.unsent, s.server.acc;
    var h := Header(|name|, name, |body|);
    assert h + s.file + acc + rest == h + (s.file + acc) + rest;
    BodyRead(name, body, s.file + acc, rest);
    assert h + (s.file + acc) + [] == h + (s.file + acc);
    ArrivedAt(s, Advance(s).server, s.file + acc, name, body);
  }

  lemma ExtendConsumed(r: Server, file: Bytes, data: Bytes, rest: Bytes)
    requires Reading(r)
    ensures Consumed(Extend(r, data), file) + rest == Consumed(r, file) + (data + rest)
  {
  }

  lemma ReceiveExtends(s: State, k: nat, name: Bytes, body: Bytes)
    requires Conserved(s, name, body) && Reading(s.server) && k <= |s.wire|
    ensures Consumed(Extend(s.server, s.wire[..k]), s.file) + (s.wire[k..] + s.unsent) == Frame(name, body)
  {
    var data, left, before := s.wire[..k], s.wire[k..], Consumed(s.server, s.file);
    assert before + s.wire + s.unsent == before + (data + (left + s.unsent));
    ExtendConsumed(s.server, s.file, data, left + s.unsent);
  }

  lemma ReceiveConserves(s: State, k: nat, name: Bytes, body: Bytes)
    requires Countable(name, body) && Conserved(s, name, body)
    requires Reading(s.server) && 0 < k <= |s.wire| && k <= Asked(s.server) - |s.server.acc|
    ensures Conserved(Apply(s, ServerReceives(k)), name, body)
  {
    var t := s.(wire := s.wire[k..], server := Extend(s.server, s.wire[..k]));
    ReceiveExtends(s, k, name, body);
    if |t.server.acc| < Asked(t.server) {
      ArrivedAt(t, t.server, t.file, name, body);
    } else if t.server.ReadBody? {
      AdvanceBody(t, name, body);
    } else {
      AdvanceHeader(t, name, body);
    }
  }

  lemma ApplyConserves(s: State, e: Event, name: Bytes, body: Bytes)
    requires Countable(name, body) && Conserved(s, name, body)
    ensures Conserved(Apply(s, e), name, body)
  {
    match e
    case ServerReceives(k) =>
      if Reading(s.server) && 0 < k <= |s.wire| && k <= Asked(s.server) - |s.server.acc| {
        ReceiveConserves(s, k, name, body);
      }
    case ClientSends(k) =>
      if !s.closed && 0 < k <= |s.unsent| {
        assert s.wire + s.unsent[..k] + s.unsent[k..] == s.wire + s.unsent;
      }
    case _ =>
  }

  /** For every interleaving of short sends and short receives, and of failures: bytes are conserved
      and what the server has written is a prefix of the client's file. */
  lemma {:induction false} PrefixAlways(name: Bytes, body: Bytes, es: seq<Event>)
    requires Countable(name, body)
    ensures Conserved(Run(name, body, es), name, body)
  {
    if es != [] {
      PrefixAlways(name, body, es[..|es| - 1]);
      ApplyConserves(Run(name, body, es[..|es| - 1]), Last(es), name, body);
    }
  }

  lemma {:induction false} FinishedNameIsGood(name: Bytes, body: Bytes, es: seq<Event>)
    requires Countable(name, body)
    ensures var r := Run(name, body, es).server;
            r.ReadSize? || r.ReadBody? || r.Finished? ==> 1 <= |name| <= MAX_NAME
  {
    if es != [] {
      FinishedNameIsGood(name, body, es[..|es| - 1]);
      PrefixAlways(name, body, es[..|es| - 1]);
    }
  }

  /** A server that completes has the client's name and the client's file, and has received the frame
      to its last byte. */
  lemma CompletionIsExact(name: Bytes, body: Bytes, es: seq<Event>)
    requires Countable(name, body) && Run(name, body, es).server.Finished?
    ensures var s := Run(name, body, es);
            s.server.name == name && s.file == body && s.wire == [] && s.unsent == []
    ensures 1 <= |name| <= MAX_NAME
  {
    PrefixAlways(name, body, es);
    var s := Run(name, body, es);
    assert s.file == body[..|s.file|];
    assert |Consumed(s.server, s.file) + s.wire + s.unsent| == |Frame(name, body)|;
    FinishedNameIsGood(name, body, es);
  }

  /** What remains to be moved. */
  function Remaining(s: State): nat {
    2 * |s.unsent| + |s.wire|
  }

  /** As long as nobody has failed and the server is not done, somebody can move a byte. */
  lemma Progress(s: State, name: Bytes, body: Bytes)
    requires Countable(name, body) && Conserved(s, name, body) && Reading(s.server)
    requires s.closed ==> s.unsent == []
    ensures s.unsent != [] ==> Apply(s, ClientSends(1)) != s
    ensures s.unsent == [] ==> s.wire != [] && Apply(s, ServerReceives(1)) != s
  {
  }

  lemma MovesDecrease(s: State, e: Event)
    requires (e.ClientSends? || e.ServerReceives?) && Apply(s, e) != s
    ensures Remaining(Apply(s, e)) < Remaining(s)
  {
  }

  /** No call fails; the client may still close when it has sent everything. */
  predicate Unfailing(es: seq<Event>) {
    forall i :: 0 <= i < |es| ==> es[i] != ClientDies && es[i] != ServerFails
  }

  /** The server has taken exactly the length of a name it does not take. */
  ghost predicate Refused(s: State, name: Bytes, body: Bytes) {
    !(1 <= |name| <= MAX_NAME) && BigEndian(|name|, 4) + (s.wire + s.unsent) == Frame(name, body)
  }

  /** A server that is still reading is never stuck, whatever has failed: the client can go on, bytes can
      be received, or the end of the stream is seen. */
  lemma NeverHangs(name: Bytes, body: Bytes, es: seq<Event>)
    requires Countable(name, body) && Reading(Run(name, body, es).server)
    ensures var s := Run(name, body, es);
            || Apply(s, ClientSends(1)) != s || Apply(s, ClientCloses) != s
            || Apply(s, ServerReceives(1)) != s || Apply(s, ServerSeesEnd).server == Died
  {
    PrefixAlways(name, body, es);
  }

  /** Any cut is possible: a send may hand over any part of what is left, and a receive get any part of
      what has arrived up to what it still asks for; each call may fail instead. */
  lemma AnyCutIsPossible(s: State, k: nat)
    requires k > 0
    ensures !s.closed && k <= |s.unsent| ==>
              var t := Apply(s, ClientSends(k));
              t.wire + t.unsent == s.wire + s.unsent && |t.unsent| == |s.unsent| - k && t.server == s.server
    ensures Reading(s.server) && k <= |s.wire| && k <= Asked(s.server) - |s.server.acc| ==>
              var t := Apply(s, ServerReceives(k));
              s.wire[..k] + t.wire == s.wire && t.unsent == s.unsent
    ensures Apply(s, ClientDies).closed && (Reading(s.server) ==> Apply(s, ServerFails).server == Died)
  {
  }

  lemma DeathByReceiving(s: State, k: nat, name: Bytes, body: Bytes)
    requires Countable(name, body) && Conserved(s, name, body)
    requires s.server != Died && Apply(s, ServerReceives(k)).server == Died
    ensures Refused(Apply(s, ServerReceives(k)), name, body)
  {
    assert s.server.ReadLength?;
    var data, rest := s.wire[..k], s.wire[k..] + s.unsent;
    var acc := s.server.acc;
    assert acc + s.wire + s.unsent == acc + data + rest;
    LengthRead(name, body, acc + data, rest);
  }

  lemma DeathStep(s: State, e: Event, name: Bytes, body: Bytes)
    requires Countable(name, body) && Conserved(s, name, body)
    requires e != ClientDies && e != ServerFails && (s.closed ==> s.unsent == [])
    requires s.server == Died ==> Refused(s, name, body)
    requires Apply(s, e).server == Died
    ensures Refused(Apply(s, e), name, body)
  {
    if s.server == Died {
      assert e.ClientSends? && e.k <= |s.unsent| ==> s.wire + s.unsent[..e.k] + s.unsent[e.k..] == s.wire + s.unsent;
    } else if e == ServerSeesEnd {
      Progress(s, name, body);
    } else {
      DeathByReceiving(s, e.k, name, body);
    }
  }

  /** In a schedule without failures the server dies only of a name it does not take, as soon as it has
      the length. */
  lemma {:induction false} DiesOnlyOfBadName(name: Bytes, body: Bytes, es: seq<Event>)
    requires Countable(name, body) && Unfailing(es)
    ensures Run(name, body, es).closed ==> Run(name, body, es).unsent == []
    ensures Run(name, body, es).server == Died ==> Refused(Run(name, body, es), name, body)
  {
    if es != [] {
      var s := Run(name, body, es[..|es| - 1]);
      DiesOnlyOfBadName(name, body, es[..|es| - 1]);
      PrefixAlways(name, body, es[..|es| - 1]);
      if Apply(s, Last(es)).server == Died { DeathStep(s, Last(es), name, body); }
    }
  }

  /** The server stands where the parser stands on the bytes taken. */
  ghost predicate StandsAt(s: State, p: Parsed) {
    && (Reading(s.server) <==> p == Short)
    && (s.server == Died <==> p == BadName)
    && (s.server.Finished? <==> p.Complete?)
    && (s.server.Finished? ==> p == Complete(s.server.name, s.file, []))
  }

  /** A server still reading has not got the whole frame. */
  lemma ReadingIsShort(s: State, name: Bytes, body: Bytes)
    requires Countable(name, body) && Conserved(s, name, body) && Reading(s.server)
    requires !s.server.ReadLength? ==> 1 <= |name| <= MAX_NAME
    ensures Parse(Consumed(s.server, s.file)) == Short
  {
    var taken := Consumed(s.server, s.file);
    assert taken + s.wire + s.unsent == taken + (s.wire + s.unsent);
    if !s.server.ReadLength? {
      assert |taken| < |Frame(name, body)|;
      ProperPrefixIsShort(name, body, taken);
    }
  }

  lemma FinishedIsComplete(name: Bytes, body: Bytes, es: seq<Event>)
    requires Countable(name, body) && Run(name, body, es).server.Finished?
    ensures var s := Run(name, body, es);
            Parse(Consumed(s.server, s.file)) == Complete(s.server.name, s.file, [])
  {
    var s := Run(name, body, es);
    CompletionIsExact(name, body, es);
    PrefixAlways(name, body, es);
    ParseFrame(name, body, []);
    assert Consumed(s.server, s.file) == Frame(name, body) + [];
  }

  lemma RefusedIsBadName(name: Bytes)
    requires |name| < Pow256(4) && !(1 <= |name| <= MAX_NAME)
    ensures Parse(BigEndian(|name|, 4)) == BadName
  {
    var length := BigEndian(|name|, 4);
    NumberRoundTrip(|name|, 4);
    assert length[..4] == length;
  }

  /** What the server has taken from the wire. */
  function Taken(s: State, name: Bytes): Bytes {
    if s.server == Died then BigEndian(|name|, 4) else Consumed(s.server, s.file)
  }

  lemma TakenComesFirst(name: Bytes, body: Bytes, es: seq<Event>)
    requires Countable(name, body) && (Run(name, body, es).server == Died ==> Unfailing(es))
    ensures var s := Run(name, body, es); Taken(s, name) + (s.wire + s.unsent) == Frame(name, body)
  {
    var s := Run(name, body, es);
    if s.server == Died {
      DiesOnlyOfBadName(name, body, es);
    } else {
      PrefixAlways(name, body, es);
      assert Consumed(s.server, s.file) + s.wire + s.unsent == Consumed(s.server, s.file) + (s.wire + s.unsent);
    }
  }

  /** In every reachable state, but for failures, the server stands where the parser stands on the bytes
      it has taken from the wire: still reading exactly while they are short of a frame, dead exactly of
      a bad name, finished exactly when they parse, with the parsed name and body. */
  lemma ServerIsParser(name: Bytes, body: Bytes, es: seq<Event>)
    requires Countable(name, body) && (Run(name, body, es).server == Died ==> Unfailing(es))
    ensures var s := Run(name, body, es);
            Taken(s, name) + (s.wire + s.unsent) == Frame(name, body) && StandsAt(s, Parse(Taken(s, name)))
  {
    var s := Run(name, body, es);
    TakenComesFirst(name, body, es);
    if s.server == Died {
      DiesOnlyOfBadName(name, body, es);
      RefusedIsBadName(name);
    } else if Reading(s.server) {
      PrefixAlways(name, body, es);
      FinishedNameIsGood(name, body, es);
      ReadingIsShort(s, name, body);
    } else {
      FinishedIsComplete(name, body, es);
    }
  }

  /** Every schedule without failures that cannot be continued ends with the file delivered, exactly
      when the server takes the name. */
  lemma QuietMeansDelivered(name: Bytes, body: Bytes, es: seq<Event>)
    requires Countable(name, body) && Unfailing(es)
    requires var s := Run(name, body, es);
             Apply(s, ClientSends(1)) == s && Apply(s, ServerReceives(1)) == s
    ensures var s := Run(name, body, es);
            if 1 <= |name| <= 4096 then s.server == Finished(name, |body|) && s.file == body else s.server == Died
  {
    var s := Run(name, body, es);
    PrefixAlways(name, body, es);
    DiesOnlyOfBadName(name, body, es);
    if Reading(s.server) {
      Progress(s, name, body);
    } else if s.server.Finished? {
      CompletionIsExact(name, body, es);
    }
  }

  // ---------------------------------------------------------------------------------------------
  // The loops of both programs
  // ---------------------------------------------------------------------------------------------

  /** Receives exactly len bytes, however they are cut up; only if the stream ends short or a call fails it
      reports the end or the error it met. */
  method RecvAll(c: Socket, buf: array<byte>, len: nat) returns (result: int)
    requires len <= buf.Length
    modifies c`input, c`broken, c`asks, buf
    ensures -1 <= result <= len
    ensures c.broken == (old(c.broken) || result < 0)
    ensures len <= |old(c.input)| && !c.broken ==> result == len
    ensures result > 0 ==> result == len <= |old(c.input)|
    ensures result > 0 ==> buf[..len] == old(c.input)[..len] && c.input == old(c.input)[len..]
    ensures result == 0 && len > 0 ==> |old(c.input)| < len
  {
    var t := 0;
    while t < len
      invariant 0 <= t <= len && t <= |old(c.input)|
      invariant buf[..t] == old(c.input)[..t] && c.input == old(c.input)[t..]
      invariant c.broken == old(c.broken)
    {
      var r := c.Recv(buf, t, len - t);
      if r <= 0 {
        return r;
      }
      t := t + r;
    }
    return t;
  }

  /** How the server's main ends: with the file, or in one of the three ways it dies. */
  datatype Outcome = Received(name: Bytes) | StreamEnded | NameRefused | RecvError

  /** One field of the header, received into a buffer of its own. */
  method RecvField(c: Socket, len: nat) returns (r: int, field: Bytes)
    requires len > 0
    modifies c`input, c`broken, c`asks
    ensures -1 <= r <= len && (r > 0 ==> r == len)
    ensures c.broken == (old(c.broken) || r < 0)
    ensures r > 0 ==> |field| == len && old(c.input) == field + c.input
    ensures r == 0 ==> |old(c.input)| < len
  {
    var buf := new byte[len](_ => 0);
    r := RecvAll(c, buf, len);
    field := buf[..len];
    assert r > 0 ==> old(c.input) == old(c.input)[..len] + old(c.input)[len..];
  }

  /** The body loop: fileSize bytes, asked for in parts of at most BUF. */
  method RecvBody(c: Socket, fileSize: nat) returns (r: int, file: Bytes)
    modifies c`input, c`broken, c`asks
    ensures c.broken == (old(c.broken) || r < 0)
    ensures |file| <= |old(c.input)| && file == old(c.input)[..|file|]
    ensures r > 0 ==> |file| == fileSize && c.input == old(c.input)[fileSize..]
    ensures r == 0 ==> |old(c.input)| < fileSize
  {
    ghost var s := c.input;
    var buf := new byte[BUF](_ => 0);
    var got := 0;
    file, r := [], 1;
    while got < fileSize
      invariant 0 <= got <= fileSize && got <= |s| && r > 0
      invariant file == s[..got] && c.input == s[got..] && c.broken == old(c.broken)
      decreases fileSize - got
    {
      var want := if fileSize - got > BUF then BUF else fileSize - got;
      assert 1 <= want == Want(fileSize, got) <= BUF;
      r := RecvAll(c, buf, want);
      if r <= 0 {
        return;
      }
      assert buf[..r] == s[got..got + r] && s[..got] + s[got..got + r] == s[..got + r];
      file := file + buf[..r];
      got := got + r;
    }
  }

  lemma ParseFields(s: Bytes, length: Bytes, name: Bytes, size: Bytes, rest: Bytes)
    requires |length| == 4 && |size| == 8 && s == length + name + size + rest
    requires |name| == FromBigEndian(length) && 1 <= |name| <= MAX_NAME
    ensures var n := FromBigEndian(size);
            Parse(s) == if |rest| < n then Short else Complete(name, rest[..n], rest[n..])
  {
    var n, m := |name|, FromBigEndian(size);
    assert s[..4] == length && s[4..n + 4] == name && s[n + 4..n + 12] == size;
    if m <= |rest| {
      assert s[n + 12..n + 12 + m] == rest[..m] && s[n + 12 + m..] == rest[m..];
    }
  }

  /** The server's main from accept to close, on any cutting of the stream: unless a recv fails it is
      Parse, and the file it has written is then the parsed body. */
  method ReceiveTransfer(c: Socket) returns (outcome: Outcome, file: Bytes)
    modifies c`input, c`broken, c`asks
    ensures outcome.RecvError? ==> c.broken
    ensures !outcome.RecvError? ==> c.broken == old(c.broken)
    ensures outcome.Received? ==> Parse(old(c.input)) == Complete(outcome.name, file, c.input)
    ensures outcome.StreamEnded? ==> Parse(old(c.input)) == Short
    ensures outcome.NameRefused? ==> Parse(old(c.input)) == BadName && file == []
  {
    ghost var s := c.input;
    file := [];
    var r, length := RecvField(c, 4);
    if r <= 0 {
      return if r == 0 then StreamEnded else RecvError, file;
    }
    assert s[..4] == length;
    var nameLen := FromBigEndian(length);
    if nameLen == 0 || nameLen > MAX_NAME {
      return NameRefused, file;
    }
    var name, size: Bytes;
    r, name := RecvField(c, nameLen);
    if r <= 0 {
      return if r == 0 then StreamEnded else RecvError, file;
    }
    r, size := RecvField(c, 8);
    if r <= 0 {
      return if r == 0 then StreamEnded else RecvError, file;
    }
    ghost var rest := c.input;
    assert s == length + name + size + rest;
    ParseFields(s, length, name, size, rest);
    r, file := RecvBody(c, FromBigEndian(size));
    if r <= 0 {
      return if r == 0 then StreamEnded else RecvError, file;
    }
    outcome := Received(name);
  }

  lemma PartOfFrame(before: Bytes, done: Bytes, piece: Bytes, frame: Bytes, output: Bytes)
    requires done + piece <= frame && before + done <= output <= before + done + piece
    ensures before <= output <= before + frame
  {
  }

  /** The client's body loop: the file in chunks of at most BUF bytes. */
  method SendBody(c: Socket, body: Bytes) returns (sent: bool)
    modifies c`output, c`broken, c`cut
    ensures c.broken == (old(c.broken) || !sent)
    ensures sent ==> c.output == old(c.output) + body
    ensures old(c.output) <= c.output <= old(c.output) + body
  {
    var buf := new byte[BUF](_ => 0);
    var pos := 0;
    while pos < |body|
      invariant 0 <= pos <= |body|
      invariant c.output == old(c.output) + body[..pos] && c.broken == old(c.broken)
    {
      var n := Min(BUF, |body| - pos);
      forall k | 0 <= k < n {
        buf[k] := body[pos + k];
      }
      assert buf[..n] == body[pos..pos + n];
      NextPart(body, pos, n);
      var r := SendAll(c, buf, n);
      if r != n {
        PartOfFrame(old(c.output), body[..pos], body[pos..pos + n], body, c.output);
        return false;
      }
      pos := pos + n;
    }
    assert body[..pos] == body;
    sent := true;
  }

  /** The three header fields, each sent in full or the client gives up. */
  method SendHeader(c: Socket, name: Bytes, size: nat) returns (sent: bool)
    requires |name| < Pow256(4) && size < Pow256(8)
    modifies c`output, c`broken, c`cut
    ensures c.broken == (old(c.broken) || !sent)
    ensures sent ==> c.output == old(c.output) + Header(|name|, name, size)
    ensures old(c.output) <= c.output <= old(c.output) + Header(|name|, name, size)
  {
    ghost var before, header, length := c.output, Header(|name|, name, size), BigEndian(|name|, 4);
    assert header == length + name + BigEndian(size, 8);
    var lengthBuf := BufferOf(BigEndian(|name|, 4));
    var r := SendAll(c, lengthBuf, 4);
    PartOfFrame(before, [], length, header, c.output);
    if r != 4 {
      return false;
    }
    var nameBuf := BufferOf(name);
    r := SendAll(c, nameBuf, |name|);
    PartOfFrame(before, length, name, header, c.output);
    if r != |name| {
      return false;
    }
    assert c.output == before + (length + name);
    var sizeBuf := BufferOf(BigEndian(size, 8));
    r := SendAll(c, sizeBuf, 8);
    PartOfFrame(before, length + name, BigEndian(size, 8), header, c.output);
    sent := r == 8;
  }

  /** The client's main from connect to close: unless a call fails exactly the frame has been handed over,
      and otherwise a part of it from its beginning. */
  method SendTransfer(c: Socket, name: Bytes, body: Bytes) returns (sent: bool)
    requires Countable(name, body)
    modifies c`output, c`broken, c`cut
    ensures c.broken == (old(c.broken) || !sent)
    ensures sent ==> c.output == old(c.output) + Frame(name, body)
    ensures old(c.output) <= c.output <= old(c.output) + Frame(name, body)
  {
    ghost var before, header := c.output, Header(|name|, name, |body|);
    sent := SendHeader(c, name, |body|);
    PartOfFrame(before, [], header, Frame(name, body), c.output);
    if sent {
      sent := SendBody(c, body);
      PartOfFrame(before, header, body, Frame(name, body), c.output);
    }
  }
}
