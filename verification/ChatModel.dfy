/** The server's data: what server.js keeps in its database and in memory, the
    JSON records it reads and the packets it sends. */
module ChatModel {
  import opened Wrappers
  import opened Framing
  import opened Dicts

  const NULL_ID := "00000000-0000-0000-0000-000000000000"
  const THE_NULL_USER := "TheNull"
  const GENERAL_GROUP := "general"
  const DEFAULT_GROUPS := ["general", "announcements", "support", "suggestions", "off-topic"]
  const SYSTEM_ID := "system"
  const SYSTEM_USER := "Nullchat"
  const THE_NULL_PASSWORD := "Catread1"
  const INVITE_PASSWORD := "nullsecteam"

  // ----- the database -----

  datatype User = User(id: string, username: string, passwordHash: string, publicKey: string, isNull: bool)

  datatype Group = Group(id: string, name: string, ownerId: string)

  /** A membership table: member id to encrypted group key. */
  type Members = Dict<string>

  datatype Data = Data(users: map<string, User>, groups: Dict<Group>, members: Dict<Members>,
                       banned: seq<string>, groupBans: map<string, seq<string>>)

  /** The database with the file it was last saved to, and how many random ids were drawn. */
  datatype Db = Db(data: Data, disk: Data, uuids: nat)

  ghost function Ids(users: map<string, User>): set<string> {
    set n | n in users :: users[n].id
  }

  // ----- what the program does not compute itself -----

  /** crypto.randomUUID, Date.now, SHA-256, String.toLowerCase and JSON.parse. */
  datatype Env = Env(uuid: nat -> string, now: nat -> int, hash: string -> string,
                     lower: string -> string, parse: seq<byte> -> Parsed)

  /** Random ids never repeat and are none of the reserved ones. */
  ghost predicate EnvOk(env: Env) {
    && (forall i, j :: 0 <= i < j ==> env.uuid(i) != env.uuid(j))
    && (forall i: nat :: env.uuid(i) != NULL_ID && env.uuid(i) != SYSTEM_ID && env.uuid(i) != "")
  }

  // ----- messages in -----

  /** A request record. An absent string reads as "" and an absent timestamp as
      0: the code treats those alike. It does not for `password` and `content`,
      on whose absence it throws. */
  datatype Json = Json(username: string, password: Option<string>, publicKey: string, invitePassword: string,
                       recipientId: string, content: Option<string>, encrypted: bool, timestamp: int,
                       groupId: string, name: string, encryptedKey: string,
                       targetId: string, sdp: string, p2pPublicKey: string, candidate: string,
                       userId: string)

  /** JSON.parse throws, or gives null, or gives a record. */
  datatype Parsed = Malformed | NullBody | Record(json: Json)

  // Message type numbers (the MT table)
  const AUTH_LOGIN: byte := 0
  const AUTH_REGISTER: byte := 1
  const TEXT_MESSAGE: byte := 3
  const GROUP_MESSAGE: byte := 4
  const CREATE_GROUP: byte := 5
  const JOIN_GROUP: byte := 6
  const P2P_OFFER: byte := 9
  const P2P_ANSWER: byte := 10
  const P2P_ICE_CANDIDATE: byte := 11
  const PING: byte := 13
  const PUB_KEY_REQUEST: byte := 18
  const RENAME_GROUP: byte := 20
  const DELETE_GROUP: byte := 21

  // ----- messages out -----

  datatype GroupRef = GroupRef(id: string, name: string)

  datatype Packet =
    | AuthOk(userId: string, username: string, isNull: bool, groups: seq<GroupRef>)
    | AuthError(error: string)
    | TextMessage(senderId: string, senderName: string, content: Option<string>, encrypted: bool, timestamp: int)
    | GroupMessage(senderId: string, senderName: string, content: Option<string>, encrypted: bool, timestamp: int,
                   groupId: string)
    | Mention(senderId: string, senderName: string, groupId: string, groupName: string, content: Option<string>)
    | GroupCreated(groupId: string, name: string)
    | GroupJoined(groupId: string)
    | ErrorPacket(error: string)
    | UserOnline(userId: string, username: string, publicKey: string)
    | UserOffline(userId: string, username: string, publicKey: string)
    | PubKeyResponse(userId: string, publicKey: string)
    | P2POffer(fromId: string, fromUsername: string, sdp: string, publicKey: string)
    | P2PAnswer(fromId: string, sdp: string, publicKey: string)
    | P2PIce(fromId: string, candidate: string)
    | Pong

  /** A packet written to a connection: `via` is the user id under which the
      connection was looked up, or "" for a reply on the sender's own connection. */
  datatype Sent = Sent(conn: nat, via: string, packet: Packet)

  // ----- memory -----

  /** A connection's identity fields; userId and username are "" for null.
      `logins` counts its successful logins and registrations. */
  datatype Ident = Ident(userId: string, username: string, authenticated: bool, isNull: bool, logins: nat)

  const NOBODY := Ident("", "", false, false, 0)

  /** A pending welcome timer. */
  datatype Timer = Timer(userId: string, username: string)

  /** Everything connections share: the database, the sessions map (user id to
      connection), the packets sent so far, clock readings taken, timers set. */
  datatype Globals = Globals(db: Db, sessions: Dict<nat>, log: seq<Sent>, ticks: nat, timers: seq<Timer>)

  /** What one connection's handler works on. */
  datatype Local = Local(g: Globals, me: Ident)
}
