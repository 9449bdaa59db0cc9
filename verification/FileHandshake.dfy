/** The file transfer with consent of both users, for a SEND command
    (Test_Code/tcp_file_transfer_server.c, Test_Code/tcp_file_transfer_client.c).

    Client, server and connection form one transition system for a given file.  The command has arrived
    whole and the server's user is about to answer; from there on every receive may get any part of
    what is under way, so that the client's "OK\n" may be cut up or run into the file. */
module FileHandshake {
  import opened Common
  import opened Network

  const BUFFER_SIZE: nat := 8192
  const OK: Bytes := [79, 75, 10]
  const REJECTED: Bytes := [82, 69, 74, 69, 67, 84, 69, 68, 10]
  const CANCEL: Bytes := [67, 65, 78, 67, 69, 76, 10]

  /** A buffer as strcmp sees it: up to its first NUL. */
  function CString(s: Bytes): (r: Bytes)
    ensures r <= s && 0 !in r
    ensures |r| < |s| ==> s[|r|] == 0
  {
    if s == [] || s[0] == 0 then [] else [s[0]] + CString(s[1..])
  }

  datatype ServerPc = AskServer | AwaitOk | ReceivingFile | ServerClosed

  datatype ClientPc = AwaitReply | AskClient | SendingFile(pos: nat) | ClientClosed(finished: bool)

  /** isOpen tells that the server has opened the file, whose contents are out.  The rest is history:
      said is all the client has sent since its command, first what the server's second receive gave;
      reply is all the server has sent, heard what the client has received. */
  datatype State = State(
    server: ServerPc,
    client: ClientPc,
    serverYes: bool,
    clientYes: bool,
    isOpen: bool,
    out: Bytes,
    up: Bytes,
    said: Bytes,
    first: Bytes,
    down: Bytes,
    reply: Bytes,
    heard: Bytes)

  datatype Event =
    | ServerAnswers(yes: bool)
    | ClientAnswers(agreed: bool)
    | ClientReceives(k: nat)
    | ClientSeesEnd
    | ClientSends
    | ClientSendsPart(k: nat)
    | ClientDies
    | ServerReceives(k: nat)
    | ServerSeesEnd
    | ServerFails

  const INIT := State(AskServer, AwaitReply, false, false, false, [], [], [], [], [], [], [])

  function Tell(s: State, data: Bytes, pc: ClientPc): State {
    s.(client := pc, up := s.up + data, said := s.said + data)
  }

  /** The number of bytes the client's next read gives. */
  function ChunkAt(file: Bytes, pos: nat): nat {
    if pos <= |file| then Min(BUFFER_SIZE, |file| - pos) else 0
  }

  function ServerTakes(s: State, k: nat): State
    requires k <= |s.up|
  {
    var data := s.up[..k];
    if s.server == AwaitOk && k < BUFFER_SIZE then
      if CString(data) == OK then s.(server := ReceivingFile, isOpen := true, first := data, up := s.up[k..])
      else s.(server := ServerClosed, first := data, up := s.up[k..])
    else if s.server == ReceivingFile && k <= BUFFER_SIZE then
      s.(out := s.out + data, up := s.up[k..])
    else s
  }

  function Apply(file: Bytes, s: State, e: Event): State {
    match e
    case ServerAnswers(yes) =>
      if s.server != AskServer then s
      else if yes then s.(server := AwaitOk, serverYes := true, down := s.down + OK, reply := OK)
      else s.(server := ServerClosed, down := s.down + REJECTED, reply := REJECTED)
    case ClientReceives(k) =>
      if s.client != AwaitReply || k == 0 || k > |s.down| || k >= BUFFER_SIZE then s
      else s.(client := if CString(s.down[..k]) == OK then AskClient else ClientClosed(false),
              heard := s.heard + s.down[..k], down := s.down[k..])
    case ClientSeesEnd =>
      if s.client != AwaitReply || s.server != ServerClosed || s.down != [] then s
      else s.(client := ClientClosed(false))
    case ClientAnswers(agreed) =>
      if s.client != AskClient then s
      else if agreed then Tell(s.(clientYes := true), OK, SendingFile(0))
      else Tell(s, CANCEL, ClientClosed(false))
    case ClientSends =>
      if !s.client.SendingFile? then s
      else
        var pos := s.client.pos;
        var n := ChunkAt(file, pos);
        if n == 0 then s.(client := ClientClosed(true)) else Tell(s, file[pos..pos + n], SendingFile(pos + n))
    case ClientSendsPart(k) =>
      if !s.client.SendingFile? || k >= ChunkAt(file, s.client.pos) then s
      else Tell(s, file[s.client.pos..s.client.pos + k], ClientClosed(false))
    case ClientDies =>
      if s.client.ClientClosed? then s else s.(client := ClientClosed(false))
    case ServerReceives(k) =>
      if k == 0 || k > |s.up| then s
      else ServerTakes(s, k)
    case ServerSeesEnd =>
      if s.client.ClientClosed? && s.up == [] && (s.server == AwaitOk || s.server == ReceivingFile)
      then s.(server := ServerClosed) else s
    case ServerFails =>
      if s.server == AwaitOk || s.server == ReceivingFile then s.(server := ServerClosed) else s
  }

  function Run(file: Bytes, es: seq<Event>): State {
    if es == [] then INIT else Apply(file, Run(file, es[..|es| - 1]), Last(es))
  }

  // ---------------------------------------------------------------------------------------------
  // Agreement
  // ---------------------------------------------------------------------------------------------

  /** What the client may have sent, by where it stands. */
  ghost predicate ClientStory(file: Bytes, s: State) {
    && match s.client
       case AwaitReply => s.said == [] && !s.clientYes && s.heard == []
       case AskClient => s.said == [] && !s.clientYes && s.serverYes && s.heard == OK
       case SendingFile(pos) =>
         s.clientYes && s.serverYes && s.heard == OK && pos <= |file| && s.said == OK + file[..pos]
       case ClientClosed(finished) =>
         && (s.clientYes ==> s.heard == OK)
         && (if s.clientYes then s.serverYes && OK <= s.said <= OK + file else s.said <= CANCEL)
         && (finished ==> s.clientYes && s.said == OK + file)
  }

  /** What the server has made of what it received. */
  ghost predicate ServerStory(s: State) {
    && (s.server == AskServer ==> s.reply == [] && !s.serverYes)
    && (s.server != AskServer ==> s.reply == if s.serverYes then OK else REJECTED)
    && s.reply == s.heard + s.down
    && s.said == s.first + s.out + s.up
    && (s.server == AskServer || s.server == AwaitOk ==> s.first == [] && !s.isOpen)
    && (s.server == AwaitOk ==> s.serverYes)
    && (s.server == ReceivingFile ==> s.isOpen)
    && (!s.isOpen ==> s.out == [])
    && (s.isOpen <==> CString(s.first) == OK)
    && (s.isOpen ==> s.serverYes)
  }

  lemma OnlyOkIsOk(h: Bytes)
    ensures h <= REJECTED ==> CString(h) != OK
    ensures h <= CANCEL ==> CString(h) != OK
  {
  }

  lemma ServerOpensStory(s: State, k: nat)
    requires ServerStory(s) && s.server == AwaitOk && 0 < k <= |s.up|
    ensures ServerStory(ServerTakes(s, k))
  {
    var data, rest := s.up[..k], s.up[k..];
    assert s.said == [] + [] + s.up == data + [] + rest;
  }

  lemma ServerWritesStory(s: State, k: nat)
    requires ServerStory(s) && s.server == ReceivingFile && k <= |s.up|
    ensures ServerStory(ServerTakes(s, k))
  {
    var data, rest := s.up[..k], s.up[k..];
    assert s.first + s.out + (data + rest) == s.first + (s.out + data) + rest;
    assert s.up == data + rest;
  }

  lemma ServerTakesStory(file: Bytes, s: State, k: nat)
    requires ClientStory(file, s) && ServerStory(s) && 0 < k <= |s.up|
    ensures ClientStory(file, ServerTakes(s, k)) && ServerStory(ServerTakes(s, k))
  {
    if s.server == AwaitOk {
      ServerOpensStory(s, k);
    } else if s.server == ReceivingFile {
      ServerWritesStory(s, k);
    }
  }

  lemma ClientReceivesStory(file: Bytes, s: State, k: nat)
    requires ClientStory(file, s) && ServerStory(s) && s.client == AwaitReply && 0 < k <= |s.down| && k < BUFFER_SIZE
    ensures var t := Apply(file, s, ClientReceives(k)); ClientStory(file, t) && ServerStory(t)
  {
    assert s.heard + s.down[..k] + s.down[k..] == s.heard + s.down == s.reply == s.down;
    OnlyOkIsOk(s.down[..k]);
  }

  lemma ClientSendsStory(file: Bytes, s: State, n: nat, pc: ClientPc)
    requires ClientStory(file, s) && ServerStory(s) && s.client.SendingFile? && n <= ChunkAt(file, s.client.pos)
    requires pc == SendingFile(s.client.pos + n) || pc == ClientClosed(false)
    ensures var t := Tell(s, file[s.client.pos..s.client.pos + n], pc); ClientStory(file, t) && ServerStory(t)
  {
  }

  lemma ClientAnswersStory(file: Bytes, s: State, agreed: bool)
    requires ClientStory(file, s) && ServerStory(s) && s.client == AskClient
    ensures var t := Apply(file, s, ClientAnswers(agreed)); ClientStory(file, t) && ServerStory(t)
  {
  }

  lemma PartKeepsStory(file: Bytes, s: State, k: nat)
    requires ClientStory(file, s) && ServerStory(s) && s.client.SendingFile? && k < ChunkAt(file, s.client.pos)
    ensures ClientStory(file, Apply(file, s, ClientSendsPart(k))) && ServerStory(Apply(file, s, ClientSendsPart(k)))
  {
    ClientSendsStory(file, s, k, ClientClosed(false));
  }

  lemma EndingsKeepStory(file: Bytes, s: State, e: Event)
    requires ClientStory(file, s) && ServerStory(s)
    requires e == ClientSeesEnd || e == ClientDies || e == ServerSeesEnd || e == ServerFails || e.ServerAnswers?
    ensures ClientStory(file, Apply(file, s, e)) && ServerStory(Apply(file, s, e))
  {
    if e == ClientDies && s.client.SendingFile? {
      assert OK + file[..s.client.pos] <= OK + file;
    }
  }

  lemma EndOfFileKeepsStory(file: Bytes, s: State)
    requires ClientStory(file, s) && ServerStory(s) && s.client == SendingFile(|file|)
    ensures ClientStory(file, s.(client := ClientClosed(true))) && ServerStory(s.(client := ClientClosed(true)))
  {
    assert file[..|file|] == file;
  }

  lemma ChunkKeepsStory(file: Bytes, s: State)
    requires ClientStory(file, s) && ServerStory(s) && s.client.SendingFile?
    ensures ClientStory(file, Apply(file, s, ClientSends)) && ServerStory(Apply(file, s, ClientSends))
  {
    var n := ChunkAt(file, s.client.pos);
    if n > 0 {
      ClientSendsStory(file, s, n, SendingFile(s.client.pos + n));
    } else {
      EndOfFileKeepsStory(file, s);
    }
  }

  lemma ApplyKeepsStory(file: Bytes, s: State, e: Event)
    requires ClientStory(file, s) && ServerStory(s)
    ensures ClientStory(file, Apply(file, s, e)) && ServerStory(Apply(file, s, e))
  {
    match e
    case ServerReceives(k) => if 0 < k <= |s.up| { ServerTakesStory(file, s, k); }
    case ClientReceives(k) =>
      if s.client == AwaitReply && 0 < k <= |s.down| && k < BUFFER_SIZE { ClientReceivesStory(file, s, k); }
    case ClientAnswers(agreed) => if s.client == AskClient { ClientAnswersStory(file, s, agreed); }
    case ClientSends =>
      if s.client.SendingFile? { ChunkKeepsStory(file, s); }
    case ClientSendsPart(k) =>
      if s.client.SendingFile? && k < ChunkAt(file, s.client.pos) { PartKeepsStory(file, s, k); }
    case _ => EndingsKeepStory(file, s, e);
  }

  lemma {:induction false} RunStory(file: Bytes, es: seq<Event>)
    ensures ClientStory(file, Run(file, es)) && ServerStory(Run(file, es))
  {
    if es != [] {
      RunStory(file, es[..|es| - 1]);
      ApplyKeepsStory(file, Run(file, es[..|es| - 1]), Last(es));
    }
  }

  /** The user at the server has answered yes when asked; likewise at the client. */
  predicate ServerSaidYes(file: Bytes, es: seq<Event>) {
    es != [] &&
    (ServerSaidYes(file, es[..|es| - 1])
     || (Last(es) == ServerAnswers(true) && Run(file, es[..|es| - 1]).server == AskServer))
  }

  predicate ClientSaidYes(file: Bytes, es: seq<Event>) {
    es != [] &&
    (ClientSaidYes(file, es[..|es| - 1])
     || (Last(es) == ClientAnswers(true) && Run(file, es[..|es| - 1]).client == AskClient))
  }

  lemma AnswersStep(file: Bytes, s: State, e: Event)
    ensures Apply(file, s, e).serverYes <==> s.serverYes || (e == ServerAnswers(true) && s.server == AskServer)
    ensures Apply(file, s, e).clientYes <==> s.clientYes || (e == ClientAnswers(true) && s.client == AskClient)
  {
  }

  lemma {:induction false} AnswersAreAsGiven(file: Bytes, es: seq<Event>)
    ensures Run(file, es).serverYes <==> ServerSaidYes(file, es)
    ensures Run(file, es).clientYes <==> ClientSaidYes(file, es)
  {
    if es != [] {
      AnswersAreAsGiven(file, es[..|es| - 1]);
      AnswersStep(file, Run(file, es[..|es| - 1]), Last(es));
    }
  }

  /** The user at the client has answered no when asked. */
  predicate ClientSaidNo(file: Bytes, es: seq<Event>) {
    es != [] &&
    (ClientSaidNo(file, es[..|es| - 1])
     || (Last(es) == ClientAnswers(false) && Run(file, es[..|es| - 1]).client == AskClient))
  }

  lemma NoStep(file: Bytes, s: State, e: Event)
    requires ClientStory(file, s)
    ensures s.client.ClientClosed? ==> Apply(file, s, e).client == s.client && Apply(file, s, e).said == s.said
    ensures e == ClientAnswers(false) && s.client == AskClient ==>
              Apply(file, s, e).client == ClientClosed(false) && Apply(file, s, e).said == CANCEL
  {
  }

  /** A no at the client is answered with "CANCEL\n", and that is all the client says. */
  lemma {:induction false} NoIsSaid(file: Bytes, es: seq<Event>)
    requires ClientSaidNo(file, es)
    ensures Run(file, es).client == ClientClosed(false) && Run(file, es).said == [67, 65, 78, 67, 69, 76, 10]
  {
    var before := es[..|es| - 1];
    RunStory(file, before);
    NoStep(file, Run(file, before), Last(es));
    if ClientSaidNo(file, before) { NoIsSaid(file, before); }
  }

  /** The server opens a file only if both users have answered yes, whatever the file and however the
      messages are cut up. */
  lemma OpenedMeansAgreed(file: Bytes, es: seq<Event>)
    requires Run(file, es).isOpen
    ensures Run(file, es).serverYes && Run(file, es).clientYes
    ensures ServerSaidYes(file, es) && ClientSaidYes(file, es)
  {
    AnswersAreAsGiven(file, es);
    RunStory(file, es);
    var s := Run(file, es);
    assert s.first <= s.said;
    OnlyOkIsOk(s.first);
  }

  /** Neither program is ever stuck: until both have closed, somebody can go on without any call failing. */
  lemma NeverStuck(file: Bytes, es: seq<Event>) returns (e: Event)
    requires Run(file, es).server != ServerClosed || !Run(file, es).client.ClientClosed?
    ensures Apply(file, Run(file, es), e) != Run(file, es)
    ensures e != ClientDies && e != ServerFails && !e.ClientSendsPart?
  {
    RunStory(file, es);
    var s := Run(file, es);
    e := match s.client
         case AwaitReply => if s.server == AskServer then ServerAnswers(true) else ClientReceives(1)
         case AskClient => ClientAnswers(true)
         case SendingFile(_) => ClientSends
         case ClientClosed(_) =>
           if s.server == AskServer then ServerAnswers(true)
           else if s.up == [] then ServerSeesEnd
           else ServerReceives(1);
    assert s.client.SendingFile? ==> s.client.pos + ChunkAt(file, s.client.pos) != s.client.pos
                                     || Apply(file, s, e).client != s.client;
  }

  // ---------------------------------------------------------------------------------------------
  // All or nothing
  // ---------------------------------------------------------------------------------------------

  /** If the server has opened the file, then its contents and what is on its way are together exactly
      what the client has sent of its file. */
  predicate Intact(file: Bytes, s: State) {
    s.isOpen ==> 3 <= |s.said| <= |file| + 3 && s.out + s.up == file[..|s.said| - 3]
  }

  predicate StartsWithNul(file: Bytes) {
    file != [] && file[0] == 0
  }

  lemma HandshakeIsExact(file: Bytes, h: Bytes)
    requires h <= OK + file && CString(h) == OK && !StartsWithNul(file)
    ensures h == OK
  {
  }

  lemma AfterOk(file: Bytes, said: Bytes, rest: Bytes)
    requires said == OK + rest && said <= OK + file
    ensures rest == file[..|said| - 3]
  {
    assert rest == said[3..];
    assert said == (OK + file)[..|said|];
  }

  /** A client that has agreed has sent OK and part of its file. */
  lemma SaidIsOffered(file: Bytes, s: State)
    requires ClientStory(file, s) && s.clientYes
    ensures OK <= s.said <= OK + file
  {
  }

  lemma StoryIsIntact(file: Bytes, s: State)
    requires ClientStory(file, s) && ServerStory(s) && s.clientYes && s.isOpen && !StartsWithNul(file)
    ensures Intact(file, s)
  {
    SaidIsOffered(file, s);
    var rest := s.out + s.up;
    assert s.said == s.first + rest;
    HandshakeIsExact(file, s.first);
    AfterOk(file, s.said, rest);
  }

  lemma RunIntact(file: Bytes, es: seq<Event>)
    requires !StartsWithNul(file)
    ensures Intact(file, Run(file, es))
  {
    if Run(file, es).isOpen {
      RunStory(file, es);
      OpenedMeansAgreed(file, es);
      StoryIsIntact(file, Run(file, es));
    }
  }

  /** For a file not starting with a NUL the transfer is all or nothing: the file is never opened, or it
      is at all times a prefix of the client's and is equal to it once the client has finished and all
      it sent has arrived. */
  lemma AllOrNothing(file: Bytes, es: seq<Event>)
    requires !StartsWithNul(file) && Run(file, es).isOpen
    ensures Run(file, es).out <= file
    ensures Run(file, es).client == ClientClosed(true) && Run(file, es).up == [] ==> Run(file, es).out == file
  {
    RunIntact(file, es);
    RunStory(file, es);
    var s := Run(file, es);
    assert s.out == (s.out + s.up)[..|s.out|];
    if s.client == ClientClosed(true) && s.up == [] { assert s.out + s.up == s.out && file[..|file|] == file; }
  }

  lemma RunAppend(file: Bytes, es: seq<Event>, e: Event)
    ensures Run(file, es + [e]) == Apply(file, Run(file, es), e)
  {
  }

  lemma OkIsOk()
    ensures CString(OK) == OK && CString(OK + [0]) == OK
  {
    var s: Bytes := OK + [0];
    assert s[1..][1..] == [10, 0] && CString(s[1..][1..]) == [10];
  }

  lemma ServerAgrees(file: Bytes) returns (es: seq<Event>)
    ensures Run(file, es) == INIT.(server := AwaitOk, serverYes := true, client := AskClient, reply := OK, heard := OK)
  {
    es := [] + [ServerAnswers(true)];
    RunAppend(file, [], ServerAnswers(true));
    assert [] + OK == OK && OK[..3] == OK && OK[3..] == [];
    OkIsOk();
    RunAppend(file, es, ClientReceives(3));
    es := es + [ClientReceives(3)];
  }

  /** Both users agree, and the client's "OK\n" is under way. */
  lemma BothAgree(file: Bytes) returns (es: seq<Event>)
    ensures Run(file, es) == INIT.(server := AwaitOk, serverYes := true, clientYes := true,
                                   client := SendingFile(0), reply := OK, heard := OK, up := OK, said := OK)
  {
    es := ServerAgrees(file);
    RunAppend(file, es, ClientAnswers(true));
    es := es + [ClientAnswers(true)];
    assert [] + OK == OK;
  }

  lemma NulEndsOk(h: Bytes)
    requires |h| > 3 && h[..3] == OK && h[3] == 0
    ensures CString(h) == OK
  {
    assert h[0] == OK[0] && h[1] == OK[1] && h[2] == OK[2];
  }

  /** A file that starts with a NUL can lose its beginning: "OK\n" and that NUL, received together, pass
      for "OK\n". */
  lemma NulLosesBeginning(file: Bytes) returns (es: seq<Event>)
    requires StartsWithNul(file)
    ensures !Intact(file, Run(file, es))
  {
    var n := ChunkAt(file, 0);
    var agreed := BothAgree(file);
    RunAppend(file, agreed, ClientSends);
    var before := agreed + [ClientSends];
    es := before + [ServerReceives(4)];
    RunAppend(file, before, ServerReceives(4));
    var up := Run(file, before).up;
    assert up == OK + file[..n];
    assert up[..4][..3] == OK && up[..4][3] == 0;
    NulEndsOk(up[..4]);
    assert |Run(file, es).up| == n - 1 && |Run(file, es).said| == n + 3;
  }

  /** Exactly the files that do not start with a NUL are transferred intact under every schedule. */
  lemma IntactExactly(file: Bytes)
    ensures (forall es :: Intact(file, Run(file, es))) <==> !StartsWithNul(file)
  {
    if StartsWithNul(file) {
      var es := NulLosesBeginning(file);
    } else {
      forall es ensures Intact(file, Run(file, es)) { RunIntact(file, es); }
    }
  }

  // ---------------------------------------------------------------------------------------------
  // When the file is opened
  // ---------------------------------------------------------------------------------------------

  lemma OkAndMore(file: Bytes, h: Bytes)
    requires h <= OK + file
    ensures CString(h) == OK <==> |h| == 3 || (|h| > 3 && StartsWithNul(file))
  {
    if |h| > 3 {
      assert h[3] == file[0] && h[..3] == OK;
      if StartsWithNul(file) { NulEndsOk(h); }
    } else if |h| == 3 {
      assert h == OK;
      OkIsOk();
    }
  }

  /** Once both users have agreed and the server has made its second receive, it has opened the file
      exactly when that receive gave the three bytes of "OK\n" alone, or more of a file that starts with
      a NUL. */
  lemma OpensExactly(file: Bytes, es: seq<Event>)
    requires Run(file, es).clientYes && Run(file, es).first != []
    ensures var s := Run(file, es);
            s.isOpen <==> |s.first| == 3 || (|s.first| > 3 && StartsWithNul(file))
  {
    var s := Run(file, es);
    RunStory(file, es);
    SaidIsOffered(file, s);
    assert s.first <= s.said;
    OkAndMore(file, s.first);
  }

  lemma ClientTells(file: Bytes, s: State, pos: nat)
    requires s.client == SendingFile(pos) && pos < |file|
    ensures var t, n := Apply(file, s, ClientSends), ChunkAt(file, pos);
            && n > 0 && pos + n <= |file|
            && t == Tell(s, file[pos..pos + n], SendingFile(pos + n))
            && t.up + file[pos + n..] == s.up + file[pos..]
            && t.said + file[pos + n..] == s.said + file[pos..]
  {
    var n := ChunkAt(file, pos);
    assert file[pos..] == file[pos..pos + n] + file[pos + n..];
  }

  /** The client sends the rest of its file and finishes, whatever the server does. */
  lemma {:induction false} ClientFinishes(file: Bytes, es: seq<Event>, pos: nat) returns (es': seq<Event>)
    requires pos <= |file| && Run(file, es).client == SendingFile(pos)
    ensures var s := Run(file, es);
            Run(file, es') == s.(client := ClientClosed(true), up := s.up + file[pos..], said := s.said + file[pos..])
    decreases |file| - pos
  {
    var s := Run(file, es);
    RunAppend(file, es, ClientSends);
    if pos == |file| {
      es' := es + [ClientSends];
      assert s.up + file[pos..] == s.up && s.said + file[pos..] == s.said;
    } else {
      ClientTells(file, s, pos);
      es' := ClientFinishes(file, es + [ClientSends], pos + ChunkAt(file, pos));
    }
  }

  /** So consent and a client that reports success do not make a transfer: wherever the server's second
      receive cuts the stream, there is a schedule in which both users have agreed, the client has sent
      all and finished, and the server has opened the file only if the cut is right. */
  lemma FinishedNotOpened(file: Bytes, k: nat) returns (es: seq<Event>)
    requires 0 < k <= |file| + 3 && k < BUFFER_SIZE
    ensures var s := Run(file, es);
            && s.serverYes && s.clientYes && s.client == ClientClosed(true) && s.said == OK + file
            && |s.first| == k
            && (s.isOpen <==> k == 3 || (k > 3 && StartsWithNul(file)))
            && (!s.isOpen ==> s.server == ServerClosed)
  {
    var agreed := BothAgree(file);
    var before := ClientFinishes(file, agreed, 0);
    RunAppend(file, before, ServerReceives(k));
    es := before + [ServerReceives(k)];
    OpensExactly(file, es);
  }

  lemma ServerWrites(file: Bytes, s: State, k: nat)
    requires s.server == ReceivingFile && 0 < k <= |s.up| && k <= BUFFER_SIZE
    ensures var t := Apply(file, s, ServerReceives(k));
            t == s.(out := s.out + s.up[..k], up := s.up[k..]) && t.out + t.up == s.out + s.up
  {
  }

  /** The server receives all that is under way. */
  lemma {:induction false} ServerDrains(file: Bytes, es: seq<Event>) returns (es': seq<Event>)
    requires Run(file, es).server == ReceivingFile
    ensures var s := Run(file, es); Run(file, es') == s.(out := s.out + s.up, up := [])
    decreases |Run(file, es).up|
  {
    var s := Run(file, es);
    if s.up == [] {
      assert s.out + s.up == s.out;
      es' := es;
    } else {
      var k := Min(BUFFER_SIZE, |s.up|);
      ServerWrites(file, s, k);
      RunAppend(file, es, ServerReceives(k));
      es' := ServerDrains(file, es + [ServerReceives(k)]);
    }
  }

  /** The server takes "OK\n" by itself. */
  lemma OkIsTaken(file: Bytes) returns (es: seq<Event>)
    ensures Run(file, es) == INIT.(server := ReceivingFile, serverYes := true, clientYes := true, isOpen := true,
                                   client := SendingFile(0), reply := OK, heard := OK, said := OK, first := OK)
  {
    var agreed := BothAgree(file);
    RunAppend(file, agreed, ServerReceives(3));
    es := agreed + [ServerReceives(3)];
    OkIsOk();
    assert OK[..3] == OK && OK[3..] == [];
  }

  /** And with the right cut the transfer works: for every file there is a schedule that ends with both
      programs closed and the whole file, byte for byte, at the server. */
  lemma TransferCompletes(file: Bytes) returns (es: seq<Event>)
    ensures var s := Run(file, es);
            s.client == ClientClosed(true) && s.server == ServerClosed && s.isOpen && s.up == [] && s.out == file
  {
    var atWork := OkIsTaken(file);
    var finished := ClientFinishes(file, atWork, 0);
    assert [] + file[0..] == file && [] + file == file;
    var drained := ServerDrains(file, finished);
    RunAppend(file, drained, ServerSeesEnd);
    es := drained + [ServerSeesEnd];
  }

  // ---------------------------------------------------------------------------------------------
  // The server's code
  // ---------------------------------------------------------------------------------------------

  /** ReceiveFile: unless a call fails, everything up to the end of the connection goes to the file. */
  method ReceiveFile(c: Socket) returns (out: Bytes, ended: bool)
    modifies c`input, c`broken, c`asks
    ensures c.broken == (old(c.broken) || !ended)
    ensures |c.asks| >= |old(c.asks)| && c.asks[..|old(c.asks)|] == old(c.asks)
    ensures out + c.input == old(c.input)
    ensures ended ==> out == old(c.input)
  {
    var buffer := new byte[BUFFER_SIZE](_ => 0);
    out := [];
    while true
      invariant out + c.input == old(c.input) && c.broken == old(c.broken)
      invariant |c.asks| >= |old(c.asks)| && c.asks[..|old(c.asks)|] == old(c.asks)
      decreases |c.input|
    {
      var r := RecvMsg(c, buffer, BUFFER_SIZE);
      if r <= 0 {
        return out, r == 0;
      }
      Regroup(out, buffer[..r], c.input);
      out := out + buffer[..r];
    }
  }

  /** The rest of HandleTCPClient once the command is known to be SEND: the file is opened exactly when
      the user agrees and one receive, which asks for a bufferful but one and gets answer bytes, gives
      something that strcmp takes for OK; then it holds what follows that receive. */
  method HandleSend(c: Socket, agreed: bool) returns (answer: int, isOpen: bool, out: Bytes, ended: bool)
    modifies c
    ensures answer <= |old(c.input)|
    ensures agreed ==> |old(c.asks)| < |c.asks| && c.asks[|old(c.asks)|] == BUFFER_SIZE - 1
    ensures agreed && !c.broken ==> answer > 0 || old(c.input) == []
    ensures !c.broken && !c.cut ==> c.output == old(c.output) + if agreed then OK else REJECTED
    ensures isOpen && !c.broken ==> ended
    ensures isOpen <==> agreed && answer > 0 && CString(old(c.input)[..answer]) == OK
    ensures isOpen ==> out + c.input == old(c.input)[answer..] && (ended ==> out == old(c.input)[answer..])
    ensures !isOpen ==> out == [] && (answer > 0 ==> c.input == old(c.input)[answer..])
    ensures !agreed ==> c.input == old(c.input) && old(c.output) <= c.output <= old(c.output) + REJECTED
    ensures agreed ==> old(c.output) <= c.output <= old(c.output) + OK
  {
    answer, isOpen, out, ended := 0, false, [], false;
    if agreed {
      var okBuf := BufferOf(OK);
      var s := c.Send(okBuf, 0, 3);
      var buffer := new byte[BUFFER_SIZE](_ => 0);
      answer := RecvMsg(c, buffer, BUFFER_SIZE - 1);
      if answer > 0 {
        assert buffer[..answer] == old(c.input)[..answer] && c.input == old(c.input)[answer..];
        if CString(buffer[..answer]) == OK {
          isOpen := true;
          out, ended := ReceiveFile(c);
        }
      }
    } else {
      var noBuf := BufferOf(REJECTED);
      var s := c.Send(noBuf, 0, 9);
    }
  }

  /** The client's SendFile: a send that takes less than a whole chunk ends the client. */
  method SendFile(c: Socket, file: Bytes) returns (finished: bool)
    modifies c`output, c`broken, c`cut
    ensures finished ==> c.broken == old(c.broken) && c.cut == old(c.cut)
    ensures !finished ==> c.broken || c.cut
    ensures finished ==> c.output == old(c.output) + file
    ensures old(c.output) <= c.output <= old(c.output) + file
  {
    var buffer := new byte[BUFFER_SIZE](_ => 0);
    var pos := 0;
    while pos < |file|
      invariant 0 <= pos <= |file| && c.output == old(c.output) + file[..pos]
      invariant c.broken == old(c.broken) && c.cut == old(c.cut)
    {
      var n := Min(BUFFER_SIZE, |file| - pos);
      forall k | 0 <= k < n {
        buffer[k] := file[pos + k];
      }
      assert buffer[..n] == file[pos..pos + n];
      NextPart(file, pos, n);
      Forwarded(old(c.output), file[..pos], file[pos..pos + n], file[pos + n..]);
      var ok := SendWhole(c, buffer, n);
      if !ok {
        return false;
      }
      pos := pos + n;
    }
    assert file[..pos] == file;
    finished := true;
  }
}
