/** The two tables of message numbers. server.js says its own must match
    Protocol.h; Protocol.h has LeaveGroup after JoinGroup and server.js has not. */
module MessageNumbers {
  import opened Framing
  import Client = ClientNetworkModel
  import Server = ChatModel
  import Spec = SessionSpec
  import Dicts
  import Wrappers

  /** The message types both tables name. */
  datatype MessageType =
    | AuthLogin | AuthRegister | AuthResponse | TextMessage | GroupMessage | CreateGroup | JoinGroup
    | GroupList | GroupInfo | P2POffer | P2PAnswer | P2PICECandidate | UserStatus | Ping | Pong | Error
    | UserOnline | UserOffline | PubKeyRequest | PubKeyResponse | RenameGroup | DeleteGroup | Mention

  /** The MT table of server.js. */
  function NodeNumber(t: MessageType): byte {
    match t
    case AuthLogin => 0 case AuthRegister => 1 case AuthResponse => 2
    case TextMessage => 3 case GroupMessage => 4
    case CreateGroup => 5 case JoinGroup => 6 case GroupList => 7 case GroupInfo => 8
    case P2POffer => 9 case P2PAnswer => 10 case P2PICECandidate => 11
    case UserStatus => 12 case Ping => 13 case Pong => 14 case Error => 15
    case UserOnline => 16 case UserOffline => 17
    case PubKeyRequest => 18 case PubKeyResponse => 19
    case RenameGroup => 20 case DeleteGroup => 21
    case Mention => 22
  }

  /** The MessageType enumeration of Protocol.h (7 is LeaveGroup). */
  function CppNumber(t: MessageType): byte {
    match t
    case AuthLogin => 0 case AuthRegister => 1 case AuthResponse => 2
    case TextMessage => 3 case GroupMessage => 4
    case CreateGroup => 5 case JoinGroup => 6 case GroupList => 8 case GroupInfo => 9
    case P2POffer => 10 case P2PAnswer => 11 case P2PICECandidate => 12
    case UserStatus => 13 case Ping => 14 case Pong => 15 case Error => 16
    case UserOnline => 17 case UserOffline => 18
    case PubKeyRequest => 19 case PubKeyResponse => 20
    case RenameGroup => 21 case DeleteGroup => 22
    case Mention => 23
  }

  /** The tables agree on a type exactly when it comes before LeaveGroup. */
  lemma NumbersAgreeExactly(t: MessageType)
    ensures NodeNumber(t) == CppNumber(t) <==> NodeNumber(t) <= 6
  {
  }

  /** The MessageType enumeration as Protocol.h lists it, LeaveGroup left out. */
  const LISTED := [
    AuthLogin, AuthRegister, AuthResponse, TextMessage, GroupMessage, CreateGroup, JoinGroup,
    GroupList, GroupInfo, P2POffer, P2PAnswer, P2PICECandidate, UserStatus, Ping, Pong, Error,
    UserOnline, UserOffline, PubKeyRequest, PubKeyResponse, RenameGroup, DeleteGroup, Mention]

  /** Without LeaveGroup the places in that list are the server's numbers; with it
      those after it move up by one. So each table numbers its types apart. */
  lemma NumbersAreListed(t: MessageType)
    ensures NodeNumber(t) as int < |LISTED| && LISTED[NodeNumber(t) as int] == t
    ensures CppNumber(t) == if NodeNumber(t) <= 6 then NodeNumber(t) else NodeNumber(t) + 1
  {
  }

  /** What the server does with each of its own numbers. */
  lemma ServerServes(env: Server.Env, c: nat, s: Server.Local, t: MessageType, j: Server.Json)
    ensures Spec.HandleRecord(env, c, s, NodeNumber(t), j) ==
              match t
              case AuthLogin => Spec.HandleLogin(env, c, s, j)
              case AuthRegister => Spec.HandleRegister(env, c, s, j)
              case TextMessage => Spec.HandleTextMessage(env, c, s, j)
              case GroupMessage => Spec.HandleGroupMessage(env, c, s, j)
              case CreateGroup => Spec.HandleCreateGroup(env, c, s, j)
              case JoinGroup => Spec.HandleJoinGroup(c, s, j)
              case P2POffer => Spec.HandleP2POffer(s, j)
              case P2PAnswer => Spec.HandleP2PAnswer(s, j)
              case P2PICECandidate => Spec.HandleP2PIce(s, j)
              case PubKeyRequest => Spec.HandlePubKeyRequest(c, s, j)
              case RenameGroup => Spec.HandleRenameGroup(env, s, j)
              case DeleteGroup => Spec.HandleDeleteGroup(s, j)
              case Ping => Spec.Reply(s, c, Server.Pong)
              case _ => s
  {
  }

  /** What the client does with each type under its own numbers: an AuthResponse
      settles who it is, a UserOnline or a PubKeyResponse teaches a key, and nothing
      else changes its state. */
  lemma ClientServes(doc: seq<byte> -> Client.Doc, s: Client.Client, t: MessageType, body: seq<byte>)
    ensures
      var d, s' := doc(body), Client.Handle(doc, s, Frame(CppNumber(t), body));
      match t
      case AuthResponse =>
        s' == (if d.status == "ok"
               then s.(userId := d.userId, username := d.username, isNull := d.isNull, authenticated := true,
                       initialGroups := d.groups)
               else s).(pendingUsername := "", pendingPassword := "")
      case UserOnline => s' == if d.publicKey == "" then s else s.(peerKeys := s.peerKeys[d.userId := d.publicKey])
      case PubKeyResponse => s' == if d.publicKey == "" then s else s.(peerKeys := s.peerKeys[d.userId := d.publicKey])
      case _ => s' == s
  {
  }

  /** The type the server sends each of its packets under. */
  function TypeOf(p: Server.Packet): MessageType {
    match p
    case AuthOk(_, _, _, _) => AuthResponse
    case AuthError(_) => AuthResponse
    case TextMessage(_, _, _, _, _) => TextMessage
    case GroupMessage(_, _, _, _, _, _) => GroupMessage
    case Mention(_, _, _, _, _) => Mention
    case GroupCreated(_, _) => GroupInfo
    case GroupJoined(_) => GroupInfo
    case ErrorPacket(_) => Error
    case UserOnline(_, _, _) => UserOnline
    case UserOffline(_, _, _) => UserOffline
    case PubKeyResponse(_, _) => PubKeyResponse
    case P2POffer(_, _, _, _) => P2POffer
    case P2PAnswer(_, _, _) => P2PAnswer
    case P2PIce(_, _) => P2PICECandidate
    case Pong => Pong
  }

  /** So of all that the Node server sends, the C++ client learns a peer's key
      from a UserOffline (which it takes for a UserOnline) and from nothing else:
      not from a UserOnline or a PubKeyResponse, whose purpose that is. */
  lemma KeysLearnedFromNode(doc: seq<byte> -> Client.Doc, s: Client.Client, p: Server.Packet, body: seq<byte>)
    ensures
      var d := doc(body);
      Client.Handle(doc, s, Frame(NodeNumber(TypeOf(p)), body)).peerKeys
      == if p.UserOffline? && d.publicKey != "" then s.peerKeys[d.userId := d.publicKey] else s.peerKeys
  {
  }

  function Entries(groups: seq<Server.GroupRef>): seq<Client.GroupEntry> {
    seq(|groups|, i requires 0 <= i < |groups| => Client.GroupEntry(groups[i].id, groups[i].name))
  }

  /** The document has the answer's fields. */
  predicate Reads(d: Client.Doc, p: Server.Packet) {
    match p
    case AuthOk(u, n, isNull, groups) => d == Client.Doc("ok", u, n, isNull, Entries(groups), d.publicKey)
    case AuthError(_) => d.status == "error"
    case _ => true
  }

  /** The client's identity, groups and login state are the server's to change by
      an AuthResponse, whose number the tables share, and by nothing else: a login
      answered ok makes the client who the server says it is. */
  lemma IdentityLearnedFromNode(doc: seq<byte> -> Client.Doc, s: Client.Client, p: Server.Packet, body: seq<byte>)
    ensures
      var s' := Client.Handle(doc, s, Frame(NodeNumber(TypeOf(p)), body));
      && (if p.AuthOk? || p.AuthError? then s'.peerKeys == s.peerKeys else s' == s.(peerKeys := s'.peerKeys))
      && (Reads(doc(body), p) ==>
            match p
            case AuthOk(u, n, isNull, groups) =>
              s' == Client.Client(u, n, true, isNull, Entries(groups), "", "", s.peerKeys)
            case AuthError(_) => s' == s.(pendingUsername := "", pendingPassword := "")
            case _ => true)
  {
  }

  // ----- what the client asks for, and what the server does -----

  /** The types the client sends. */
  predicate Sends(t: MessageType) {
    || t.AuthLogin? || t.AuthRegister? || t.TextMessage? || t.GroupMessage? || t.CreateGroup? || t.JoinGroup?
    || t.P2POffer? || t.RenameGroup? || t.DeleteGroup? || t.PubKeyRequest?
  }

  /** What the server makes of each: it takes an offer for an answer and a
      renaming for a deletion, and does nothing on a deletion or a key request. */
  lemma ClientRequestsRead(env: Server.Env, c: nat, s: Server.Local, t: MessageType, j: Server.Json)
    requires Sends(t)
    ensures Spec.HandleRecord(env, c, s, CppNumber(t), j) ==
              match t
              case AuthLogin => Spec.HandleLogin(env, c, s, j)
              case AuthRegister => Spec.HandleRegister(env, c, s, j)
              case TextMessage => Spec.HandleTextMessage(env, c, s, j)
              case GroupMessage => Spec.HandleGroupMessage(env, c, s, j)
              case CreateGroup => Spec.HandleCreateGroup(env, c, s, j)
              case JoinGroup => Spec.HandleJoinGroup(c, s, j)
              case P2POffer => Spec.HandleP2PAnswer(s, j)
              case RenameGroup => Spec.HandleDeleteGroup(s, j)
              case _ => s
  {
  }

  /** An admin's renaming by the client deletes the group and its members. */
  lemma ClientRenameDeletes(env: Server.Env, c: nat, s: Server.Local, j: Server.Json)
    requires s.me.authenticated && s.me.isNull && j.groupId in s.g.db.data.groups.vals
    ensures
      var d' := Spec.HandleRecord(env, c, s, CppNumber(RenameGroup), j).g.db.data;
      j.groupId !in d'.groups.vals && j.groupId !in d'.members.vals
  {
    ClientRequestsRead(env, c, s, RenameGroup, j);
    DeletionDeletes(s, j);
  }

  lemma DeletionDeletes(s: Server.Local, j: Server.Json)
    requires s.me.authenticated && s.me.isNull && j.groupId in s.g.db.data.groups.vals
    ensures
      var d' := Spec.HandleDeleteGroup(s, j).g.db.data;
      j.groupId !in d'.groups.vals && j.groupId !in d'.members.vals
  {
  }

  /** The server does the same on the client's number for a type as on its own. */
  ghost predicate ServedAsMeant(t: MessageType) {
    forall env, c, s, j ::
      Spec.HandleRecord(env, c, s, CppNumber(t), j) == Spec.HandleRecord(env, c, s, NodeNumber(t), j)
  }

  /** A request of the client's is served as meant, whatever the state and the
      request, exactly if its type comes before LeaveGroup. */
  lemma ServedAsMeantExactly(t: MessageType)
    requires Sends(t)
    ensures ServedAsMeant(t) <==> CppNumber(t) <= 6
  {
    if CppNumber(t) > 6 {
      Misserved(t);
    } else {
      assert CppNumber(t) == NodeNumber(t);
    }
  }

  lemma Misserved(t: MessageType)
    requires Sends(t) && CppNumber(t) > 6
    ensures !ServedAsMeant(t)
  {
    var env, s, j := AdminAlone();
    MisservedThere(env, s, t, j);
  }

  /** An admin online with one group, and a request about it and themselves. */
  ghost predicate Scene(s: Server.Local, j: Server.Json) {
    && s.me.authenticated && s.me.isNull
    && j.groupId in s.g.db.data.groups.vals && j.targetId in s.g.sessions.vals
  }

  lemma AdminAlone() returns (env: Server.Env, s: Server.Local, j: Server.Json)
    ensures Scene(s, j)
  {
    var groups := Dicts.Put(Dicts.Empty<Server.Group>(), "", Server.Group("", "", ""));
    var data := Server.Data(map[], groups, Dicts.Empty<Server.Members>(), [], map[]);
    var sessions := Dicts.Put(Dicts.Empty<nat>(), "", 0);
    env := Server.Env(_ => "", _ => 0, text => text, text => text, _ => Server.Malformed);
    s := Server.Local(Server.Globals(Server.Db(data, data, 0), sessions, [], 0, []),
                      Server.Ident("", "", true, true, 1));
    j := Server.Json("", Wrappers.None, "", "", "", Wrappers.None, false, 0, "", "", "", "", "", "", "", "");
  }

  lemma MisservedThere(env: Server.Env, s: Server.Local, t: MessageType, j: Server.Json)
    requires Sends(t) && CppNumber(t) > 6 && Scene(s, j)
    ensures Spec.HandleRecord(env, 0, s, CppNumber(t), j) != Spec.HandleRecord(env, 0, s, NodeNumber(t), j)
  {
    ClientRequestsRead(env, 0, s, t, j);
    match t
    case P2POffer =>
      var sent := Spec.HandleP2POffer(s, j).g.log;
      assert sent[|s.g.log|].packet.P2POffer? && Spec.HandleP2PAnswer(s, j).g.log[|s.g.log|].packet.P2PAnswer?;
    case RenameGroup =>
      assert j.groupId in Spec.HandleRenameGroup(env, s, j).g.db.data.groups.vals;
    case DeleteGroup =>
      assert j.groupId !in Spec.HandleDeleteGroup(s, j).g.db.data.groups.vals;
    case PubKeyRequest =>
      assert |Spec.HandlePubKeyRequest(0, s, j).g.log| == |s.g.log| + 1;
  }
}
