/** Who gets what when a message is posted, and what becomes of the text of an
    admin's /broadcast. */
module Broadcast {
  import opened Wrappers
  import opened Dicts
  import opened ChatModel
  import opened DbSpec
  import opened DbInvariants
  import opened SessionSpec
  import Effects
  import Undo

  /** The packets among `sent` routed to u, in order. */
  ghost function Received(sent: seq<Sent>, u: string): seq<Packet> {
    if sent == [] then []
    else
      var front, last := sent[..|sent| - 1], sent[|sent| - 1];
      if last.via == u then Received(front, u) + [last.packet] else Received(front, u)
  }

  lemma {:induction false} ReceivedConcat(a: seq<Sent>, b: seq<Sent>, u: string)
    ensures Received(a + b, u) == Received(a, u) + Received(b, u)
    decreases |b|
  {
    if b == [] {
      assert a + b == a;
    } else {
      assert (a + b)[..|a + b| - 1] == a + b[..|b| - 1];
      ReceivedConcat(a, b[..|b| - 1], u);
    }
  }

  lemma {:induction false} SomeReceived(sent: seq<Sent>, u: string) returns (k: nat)
    requires Received(sent, u) != []
    ensures k < |sent| && sent[k].via == u && sent[k].packet in Received(sent, u)
    decreases |sent|
  {
    var front, last := sent[..|sent| - 1], sent[|sent| - 1];
    if last.via == u {
      k := |sent| - 1;
    } else {
      k := SomeReceived(front, u);
    }
  }

  // ----- posting to a group -----

  predicate Online(g: Globals, u: string) {
    u in g.sessions.vals
  }

  /** What one delivery sends, as its addressee and anyone else see it. */
  lemma DeliverToExact(env: Env, g: Globals, me: Ident, m: string, p: Packet, mention: Packet, text: string,
                       n: string)
    requires DbOk(env, g.db) && m in Ids(g.db.data.users) && n in g.db.data.users
    ensures
      var d := DeliverTo(g, me, m, p, mention, Some(text));
      var u := g.db.data.users[n].id;
      && !d.threw
      && Received(d.sent, u) ==
           if u == m && u != me.userId && Online(g, u)
           then [p] + (if Contains(text, "@" + n) then [mention] else []) else []
  {
    var d := DeliverTo(g, me, m, p, mention, Some(text));
    var u := g.db.data.users[n].id;
    NameOfNobody(g.db.data.users, m);
    NameOfUser(g.db.data.users, n);
    if m != me.userId && Online(g, m) {
      var first := Sent(g.sessions.vals[m], m, p);
      var second := Sent(g.sessions.vals[m], m, mention);
      assert Mentioned(g.db.data, Some(text), m).Some?;
      ReceivedOne(first, u);
      if Mentioned(g.db.data, Some(text), m).value {
        assert d.sent == [first] + [second];
        ReceivedOne(second, u);
        ReceivedConcat([first], [second], u);
      } else {
        assert d.sent == [first];
      }
    }
  }

  lemma ReceivedOne(e: Sent, u: string)
    ensures Received([e], u) == if e.via == u then [e.packet] else []
  {
    assert [e][..0] == [];
  }

  /** What each delivery of the loop sends to u: x, if it is for u and u is due it. */
  ghost predicate SendsEach(g: Globals, me: Ident, members: seq<string>, p: Packet, mention: Packet,
                            content: Option<string>, u: string, due: bool, x: seq<Packet>) {
    forall m :: m in members ==> SendsOne(DeliverTo(g, me, m, p, mention, content), m, u, due, x)
  }

  ghost predicate SendsOne(d: Delivery, m: string, u: string, due: bool, x: seq<Packet>) {
    !d.threw && Received(d.sent, u) == if u == m && due then x else []
  }

  lemma DeliverExact(env: Env, g: Globals, me: Ident, members: seq<string>, p: Packet, mention: Packet, text: string,
                     n: string)
    requires DbOk(env, g.db) && Distinct(members)
    requires forall m :: m in members ==> m in Ids(g.db.data.users)
    requires n in g.db.data.users
    ensures
      var d := Deliver(g, me, members, p, mention, Some(text), |members|);
      var u := g.db.data.users[n].id;
      && !d.threw
      && Received(d.sent, u) ==
           if u in members && u != me.userId && Online(g, u)
           then [p] + (if Contains(text, "@" + n) then [mention] else []) else []
  {
    var u := g.db.data.users[n].id;
    var due, x := u != me.userId && Online(g, u), [p] + (if Contains(text, "@" + n) then [mention] else []);
    forall m | m in members
      ensures SendsOne(DeliverTo(g, me, m, p, mention, Some(text)), m, u, due, x)
    {
      DeliverToExact(env, g, me, m, p, mention, text, n);
    }
    DeliverAddsUp(g, me, members, p, mention, Some(text), |members|, u, due, x);
    assert members[..|members|] == members;
  }

  lemma {:induction false} DeliverAddsUp(g: Globals, me: Ident, members: seq<string>, p: Packet, mention: Packet,
                                         content: Option<string>, k: nat, u: string, due: bool, x: seq<Packet>)
    requires Distinct(members) && k <= |members| && SendsEach(g, me, members, p, mention, content, u, due, x)
    ensures SendsIf(Deliver(g, me, members, p, mention, content, k), u in members[..k], u, due, x)
  {
    if k > 0 {
      DeliverAddsUp(g, me, members, p, mention, content, k - 1, u, due, x);
      assert members[k - 1] in members;
      TakeNext(members, k, u);
      DeliveryNext(Deliver(g, me, members, p, mention, content, k - 1),
                   DeliverTo(g, me, members[k - 1], p, mention, content), u in members[..k - 1], members[k - 1], u,
                   due, x);
    }
  }

  ghost predicate SendsIf(d: Delivery, among: bool, u: string, due: bool, x: seq<Packet>) {
    !d.threw && Received(d.sent, u) == if among && due then x else []
  }

  lemma DeliveryNext(before: Delivery, last: Delivery, early: bool, m: string, u: string, due: bool, x: seq<Packet>)
    requires SendsIf(before, early, u, due, x) && SendsOne(last, m, u, due, x) && !(early && u == m)
    ensures SendsIf(Delivery(before.sent + last.sent, last.threw), early || u == m, u, due, x)
  {
    ReceivedNext(before.sent, last.sent, u, early, u == m, due, x);
  }

  /** What u got from the members before and from the next one, taken together. */
  lemma ReceivedNext(before: seq<Sent>, last: seq<Sent>, u: string, early: bool, now: bool, due: bool, x: seq<Packet>)
    requires !(early && now)
    requires Received(before, u) == if early && due then x else []
    requires Received(last, u) == if now && due then x else []
    ensures Received(before + last, u) == if (early || now) && due then x else []
  {
    ReceivedConcat(before, last, u);
  }

  /** The i-th delivery is for a member other than the sender, on that member's
      connection, and if it is a mention it comes right after the message. */
  ghost predicate ForMember(g: Globals, me: Ident, members: seq<string>, p: Packet, mention: Packet,
                            sent: seq<Sent>, i: nat)
    requires i < |sent|
  {
    && sent[i].via in members && sent[i].via != me.userId
    && Online(g, sent[i].via) && sent[i].conn == g.sessions.vals[sent[i].via]
    && (sent[i].packet == p || (sent[i].packet == mention && i > 0 && sent[i - 1] == sent[i].(packet := p)))
  }

  ghost predicate AllForMembers(g: Globals, me: Ident, members: seq<string>, p: Packet, mention: Packet,
                                sent: seq<Sent>) {
    forall i :: 0 <= i < |sent| ==> ForMember(g, me, members, p, mention, sent, i)
  }

  lemma {:induction false} DeliverOnly(g: Globals, me: Ident, members: seq<string>, p: Packet, mention: Packet,
                                       content: Option<string>, k: nat)
    requires k <= |members|
    ensures AllForMembers(g, me, members, p, mention, Deliver(g, me, members, p, mention, content, k).sent)
  {
    if k > 0 {
      DeliverOnly(g, me, members, p, mention, content, k - 1);
      assert members[k - 1] in members;
      var before := Deliver(g, me, members, p, mention, content, k - 1);
      var last := DeliverTo(g, me, members[k - 1], p, mention, content);
      var sent := Deliver(g, me, members, p, mention, content, k).sent;
      forall i | 0 <= i < |sent|
        ensures ForMember(g, me, members, p, mention, sent, i)
      {
        if i < |before.sent| {
          assert ForMember(g, me, members, p, mention, before.sent, i);
        } else {
          assert ForMember(g, me, members, p, mention, last.sent, i - |before.sent|);
        }
      }
    }
  }

  /** The message and the mention an accepted post gives rise to. */
  function PostPacket(env: Env, s: Local, j: Json): Packet {
    GroupMessage(s.me.userId, s.me.username, j.content, j.encrypted, Stamp(env, s.g, j.timestamp).0, j.groupId)
  }

  function MentionPacket(s: Local, j: Json): Packet {
    Mention(s.me.userId, s.me.username, j.groupId, GroupName(s.g.db.data, j.groupId), j.content)
  }

  /** Whom a post is due to among the first k members: those online other than the sender. */
  function Due(g: Globals, me: Ident, members: seq<string>, k: nat): (due: seq<string>)
    requires k <= |members|
    ensures forall i :: 0 <= i < |due| ==> Online(g, due[i])
  {
    if k == 0 then []
    else
      var m := members[k - 1];
      Due(g, me, members, k - 1) + if m != me.userId && Online(g, m) then [m] else []
  }

  lemma {:induction false} DueExact(g: Globals, me: Ident, members: seq<string>, k: nat)
    requires Distinct(members) && k <= |members|
    ensures forall u :: u in Due(g, me, members, k) <==> u in members[..k] && u != me.userId && Online(g, u)
    ensures Distinct(Due(g, me, members, k))
  {
    if k > 0 {
      var m := members[k - 1];
      DueExact(g, me, members, k - 1);
      DistinctFrom(members, k - 1);
      assert members[..k] == members[..k - 1] + [m];
      if m != me.userId && Online(g, m) {
        DistinctAdd(Due(g, me, members, k - 1), m);
      } else {
        assert Due(g, me, members, k) == Due(g, me, members, k - 1);
      }
    }
  }

  /** Without a text the loop is cut short by its first delivery. */
  lemma {:induction false} DeliverWithoutText(env: Env, g: Globals, me: Ident, members: seq<string>, p: Packet,
                                              mention: Packet, k: nat)
    requires DbOk(env, g.db) && k <= |members|
    requires forall m :: m in members ==> m in Ids(g.db.data.users)
    ensures
      var due := Due(g, me, members, k);
      Deliver(g, me, members, p, mention, None, k)
      == if due == [] then Delivery([], false)
         else Delivery([Sent(g.sessions.vals[due[0]], due[0], p)], true)
  {
    if k > 0 {
      DeliverWithoutText(env, g, me, members, p, mention, k - 1);
      NameOfNobody(g.db.data.users, members[k - 1]);
    }
  }

  /** What a post sends: the entries the log grows by. */
  ghost function PostSent(env: Env, c: nat, s: Local, j: Json): seq<Sent>
    requires s.g.log <= HandleGroupMessage(env, c, s, j).g.log
  {
    HandleGroupMessage(env, c, s, j).g.log[|s.g.log|..]
  }

  /** The members a post is due to. */
  function DueFor(s: Local, j: Json): seq<string> {
    var members := GroupMembers(s.g.db.data, j.groupId);
    Due(s.g, s.me, members, |members|)
  }

  /** Group broadcast is exact. A post that is accepted and is no command sends
      each online member but the sender exactly one GroupMessage, followed by one
      Mention exactly if '@' and their username occur in the text; and it sends
      nothing to anyone else. A post without a text sends one GroupMessage, to the
      first of these members only, and from a connection with admin rights none. */
  lemma GroupBroadcastExact(env: Env, c: nat, s: Local, j: Json, n: string)
    requires DbOk(env, s.g.db) && n in s.g.db.data.users
    requires Effects.MayPost(s, j.groupId) && !(s.me.isNull && IsCommand(j.content))
    ensures
      var g' := HandleGroupMessage(env, c, s, j).g;
      var u := s.g.db.data.users[n].id;
      var members := GroupMembers(s.g.db.data, j.groupId);
      var p, mention, due := PostPacket(env, s, j), MentionPacket(s, j), DueFor(s, j);
      && s.g.log <= g'.log && g'.db == s.g.db
      && (u in due <==> u in members && u != s.me.userId && Online(s.g, u))
      && Received(PostSent(env, c, s, j), u) ==
           (match j.content
            case Some(text) => if u in due then [p] + (if Contains(text, "@" + n) then [mention] else []) else []
            case None => if !s.me.isNull && due != [] && u == due[0] then [p] else [])
      && AllForMembers(s.g, s.me, members, p, mention, PostSent(env, c, s, j))
  {
    var members := GroupMembers(s.g.db.data, j.groupId);
    var p, mention := PostPacket(env, s, j), MentionPacket(s, j);
    PostSends(env, c, s, j);
    MembersRegistered(env, s.g.db, j.groupId);
    DeliverAnyExact(env, s.g, s.me, members, p, mention, j.content, n);
    DeliverOnly(s.g, s.me, members, p, mention, j.content, |members|);
  }

  /** In particular, a post with a text reaches each online member but the sender. */
  lemma PostReaches(env: Env, c: nat, s: Local, j: Json, n: string)
    requires DbOk(env, s.g.db) && n in s.g.db.data.users && j.content.Some?
    requires Effects.MayPost(s, j.groupId) && !(s.me.isNull && IsCommand(j.content))
    requires
      var u := s.g.db.data.users[n].id;
      u in GroupMembers(s.g.db.data, j.groupId) && u != s.me.userId && Online(s.g, u)
    ensures s.g.log <= HandleGroupMessage(env, c, s, j).g.log
    ensures Received(PostSent(env, c, s, j), s.g.db.data.users[n].id) != []
    ensures AllForMembers(s.g, s.me, GroupMembers(s.g.db.data, j.groupId), PostPacket(env, s, j), MentionPacket(s, j),
                          PostSent(env, c, s, j))
  {
    GroupBroadcastExact(env, c, s, j, n);
  }

  lemma DeliverAnyExact(env: Env, g: Globals, me: Ident, members: seq<string>, p: Packet, mention: Packet,
                        content: Option<string>, n: string)
    requires DbOk(env, g.db) && Distinct(members) && n in g.db.data.users
    requires forall m :: m in members ==> m in Ids(g.db.data.users)
    ensures
      var u := g.db.data.users[n].id;
      var due := Due(g, me, members, |members|);
      && (u in due <==> u in members && u != me.userId && Online(g, u))
      && Received(Deliver(g, me, members, p, mention, content, |members|).sent, u) ==
           match content
           case Some(text) => if u in due then [p] + (if Contains(text, "@" + n) then [mention] else []) else []
           case None => if due != [] && u == due[0] then [p] else []
  {
    DueExact(g, me, members, |members|);
    assert members[..|members|] == members;
    match content
    case Some(text) =>
      DeliverExact(env, g, me, members, p, mention, text, n);
    case None =>
      DeliverWithoutText(env, g, me, members, p, mention, |members|);
      var due := Due(g, me, members, |members|);
      if due != [] {
        ReceivedOne(Sent(g.sessions.vals[due[0]], due[0], p), g.db.data.users[n].id);
      }
  }

  lemma MembersRegistered(env: Env, b: Db, gid: string)
    requires DbOk(env, b)
    ensures forall m :: m in GroupMembers(b.data, gid) ==> m in Ids(b.data.users)
  {
    forall m | m in GroupMembers(b.data, gid)
      ensures m in Ids(b.data.users)
    {
      assert m in b.data.members.vals[gid].vals;
    }
  }

  lemma PostSends(env: Env, c: nat, s: Local, j: Json)
    requires Effects.MayPost(s, j.groupId) && !(s.me.isNull && IsCommand(j.content))
    ensures
      var g' := HandleGroupMessage(env, c, s, j).g;
      var members := GroupMembers(s.g.db.data, j.groupId);
      && s.g.log <= g'.log && g'.db == s.g.db
      && PostSent(env, c, s, j)
         == if s.me.isNull && j.content.None? then []
            else Deliver(s.g, s.me, members, PostPacket(env, s, j), MentionPacket(s, j), j.content, |members|).sent
  {
    var members := GroupMembers(s.g.db.data, j.groupId);
    DeliverIgnoresClock(Stamp(env, s.g, j.timestamp).1, s.g, s.me, members, PostPacket(env, s, j), MentionPacket(s, j),
                        j.content, |members|);
  }

  /** Every member a post is due to gets something exactly if it has a text, or is
      due to no more than one (to none, on a connection with admin rights). */
  lemma AllServedExactly(env: Env, c: nat, s: Local, j: Json)
    requires DbOk(env, s.g.db)
    requires Effects.MayPost(s, j.groupId) && !(s.me.isNull && IsCommand(j.content))
    ensures s.g.log <= HandleGroupMessage(env, c, s, j).g.log
    ensures
      (forall m :: m in DueFor(s, j) ==> Received(PostSent(env, c, s, j), m) != [])
      <==> j.content.Some? || |DueFor(s, j)| <= if s.me.isNull then 0 else 1
  {
    PostSends(env, c, s, j);
    var members, due := GroupMembers(s.g.db.data, j.groupId), DueFor(s, j);
    DueExact(s.g, s.me, members, |members|);
    assert members[..|members|] == members;
    MembersRegistered(env, s.g.db, j.groupId);
    forall m | m in due
      ensures Received(PostSent(env, c, s, j), m) != [] <==> j.content.Some? || (!s.me.isNull && m == due[0])
    {
      var n :| n in s.g.db.data.users && s.g.db.data.users[n].id == m;
      GroupBroadcastExact(env, c, s, j, n);
    }
    ServedExactly(PostSent(env, c, s, j), due, j.content.Some?, !s.me.isNull);
  }

  lemma ServedExactly(sent: seq<Sent>, due: seq<string>, all: bool, first: bool)
    requires Distinct(due)
    requires forall m :: m in due ==> (Received(sent, m) != [] <==> all || (first && m == due[0]))
    ensures (forall m :: m in due ==> Received(sent, m) != []) <==> all || |due| <= if first then 1 else 0
  {
    if |due| > 1 {
      assert Differ(due, 0, 1) && due[1] in due;
    } else if |due| == 1 {
      assert due[0] in due;
    }
  }

  lemma {:induction false} DeliverIgnoresClock(g: Globals, h: Globals, me: Ident, members: seq<string>,
                                               p: Packet, mention: Packet,
                                               content: Option<string>, k: nat)
    requires k <= |members| && g.sessions == h.sessions && g.db == h.db
    ensures Deliver(g, me, members, p, mention, content, k) == Deliver(h, me, members, p, mention, content, k)
  {
    if k > 0 {
      DeliverIgnoresClock(g, h, me, members, p, mention, content, k - 1);
    }
  }

  // ----- system messages -----

  lemma FanoutOneExact(m: string, sessions: Dict<nat>, except: Option<string>, p: Packet, u: string)
    ensures Received(FanoutOne(m, sessions, except, p), u)
         == if u == m && u in sessions.vals && Some(u) != except then [p] else []
  {
    if m in sessions.vals {
      ReceivedOne(Sent(sessions.vals[m], m, p), u);
    }
  }

  lemma {:induction false} FanoutExact(users: seq<string>, sessions: Dict<nat>, except: Option<string>,
                                       p: Packet, k: nat, u: string)
    requires Distinct(users) && k <= |users|
    ensures Received(Fanout(users, sessions, except, p, k), u)
         == if u in users[..k] && u in sessions.vals && Some(u) != except then [p] else []
  {
    if k > 0 {
      FanoutExact(users, sessions, except, p, k - 1, u);
      FanoutNext(users, sessions, except, p, k, u, u in sessions.vals && Some(u) != except);
    }
  }

  lemma FanoutNext(users: seq<string>, sessions: Dict<nat>, except: Option<string>, p: Packet, k: nat, u: string,
                   due: bool)
    requires Distinct(users) && 0 < k <= |users| && (due <==> u in sessions.vals && Some(u) != except)
    requires Received(Fanout(users, sessions, except, p, k - 1), u) == if u in users[..k - 1] && due then [p] else []
    ensures Received(Fanout(users, sessions, except, p, k), u) == if u in users[..k] && due then [p] else []
  {
    var m := users[k - 1];
    FanoutOneExact(m, sessions, except, p, u);
    TakeNext(users, k, u);
    ReceivedNext(Fanout(users, sessions, except, p, k - 1), FanoutOne(m, sessions, except, p), u,
                 u in users[..k - 1], u == m, due, [p]);
  }

  /** A system message reaches each online member once and no one else. */
  lemma SystemMessageExact(env: Env, g: Globals, gid: string, text: string, u: string)
    ensures
      var g' := SystemMessage(env, g, gid, text);
      && g.log <= g'.log
      && Received(g'.log[|g.log|..], u)
         == if u in GroupMembers(g.db.data, gid) && Online(g, u)
            then [GroupMessage(SYSTEM_ID, SYSTEM_USER, Some(text), false, env.now(g.ticks), gid)] else []
  {
    var members := GroupMembers(g.db.data, gid);
    var p := GroupMessage(SYSTEM_ID, SYSTEM_USER, Some(text), false, env.now(g.ticks), gid);
    FanoutExact(members, g.sessions, None, p, |members|, u);
    assert members[..|members|] == members;
    assert SystemMessage(env, g, gid, text).log[|g.log|..] == Fanout(members, g.sessions, None, p, |members|);
  }

  /** A user's coming or going is told to every other online user, once. */
  lemma StatusExact(g: Globals, u: string, username: string, online: bool, v: string)
    ensures
      var g' := BroadcastStatus(g, u, username, online);
      var key := PublicKeyOf(g.db.data.users, u);
      && g.log <= g'.log
      && Received(g'.log[|g.log|..], v)
         == if Online(g, v) && v != u
            then [if online then UserOnline(u, username, key) else UserOffline(u, username, key)] else []
  {
    var key := PublicKeyOf(g.db.data.users, u);
    var p := if online then UserOnline(u, username, key) else UserOffline(u, username, key);
    var keys := g.sessions.keys;
    FanoutExact(keys, g.sessions, Some(u), p, |keys|, v);
    assert keys[..|keys|] == keys;
    assert BroadcastStatus(g, u, username, online).log[|g.log|..] == Fanout(keys, g.sessions, Some(u), p, |keys|);
  }

  // ----- logging in, and messages to one user -----

  /** The end of a login or registration of user u on connection c: one reply on
      c, whose group list names exactly the groups u is a member of; one
      UserOnline, with the key just given or else the stored one, to every other
      online user; nothing to anyone else. */
  lemma AnnounceExact(env: Env, c: nat, s: Local, key: string, isNull: bool, gid: string, v: string)
    requires DbOk(env, s.g.db) && s.me.userId in Ids(s.g.db.data.users) && "" !in s.g.sessions.vals
    ensures
      var u := s.me.userId;
      var g' := Announce(c, s, key, isNull).g;
      var sent := g'.log[|s.g.log|..];
      var stored := if key != "" then key else PublicKeyOf(s.g.db.data.users, u);
      && s.g.log <= g'.log && |sent| > 0
      && sent[0] == Sent(c, "", AuthOk(u, s.me.username, isNull, GroupsOf(s.g.db.data, u)))
      && NamesListed(GroupsOf(s.g.db.data, u), gid) == NameIfMember(s.g.db.data, gid, u)
      && Received(sent[1..], v) == (if Online(s.g, v) && v != u then [UserOnline(u, s.me.username, stored)] else [])
  {
    var u := s.me.userId;
    var s1 := if key != "" then s.(g := s.g.(db := SetPublicKey(s.g.db, u, key))) else s;
    Undo.PublicKeysFormMap(env, s.g.db, u, key, u);
    ListingExact(env, s.g.db, u, gid);
    SameGroups(s.g.db.data, s1.g.db.data, u, |s.g.db.data.members.keys|);
    var reply := AuthOk(u, s.me.username, isNull, GroupsOf(s1.g.db.data, u));
    var s2 := Reply(s1, c, reply);
    StatusExact(s2.g, u, s.me.username, true, v);
    var g' := Announce(c, s, key, isNull).g;
    assert g' == BroadcastStatus(s2.g, u, s.me.username, true);
    assert s2.g.log == s.g.log + [Sent(c, "", reply)];
    assert g'.log[|s.g.log|..][1..] == g'.log[|s2.g.log|..];
    assert g'.log[|s.g.log|] == s2.g.log[|s.g.log|];
  }

  /** The names under which the list has the group. */
  function NamesListed(list: seq<GroupRef>, gid: string): seq<string> {
    if list == [] then []
    else
      var last := list[|list| - 1];
      NamesListed(list[..|list| - 1], gid) + if last.id == gid then [last.name] else []
  }

  /** The group's one name, if the user is a member. */
  function NameIfMember(d: Data, gid: string, u: string): seq<string> {
    if gid in d.groups.vals && EntryOf(d, gid, u).Some? then [d.groups.vals[gid].name] else []
  }

  /** A user's group list has a group once, under its name, exactly if they are a member. */
  lemma ListingExact(env: Env, b: Db, u: string, gid: string)
    requires DbOk(env, b)
    ensures NamesListed(GroupsOf(b.data, u), gid) == NameIfMember(b.data, gid, u)
  {
    GroupListExact(env, b, u, gid);
    if r :| r in GroupsOf(b.data, u) && r.id == gid {
      ListedOnce(GroupsOf(b.data, u), r);
    } else {
      NotListed(GroupsOf(b.data, u), gid);
    }
  }

  ghost predicate DistinctIds(list: seq<GroupRef>) {
    forall i, j :: 0 <= i < j < |list| ==> list[i].id != list[j].id
  }

  lemma {:induction false} ListedOnce(list: seq<GroupRef>, r: GroupRef)
    requires DistinctIds(list) && r in list
    ensures NamesListed(list, r.id) == [r.name]
  {
    var front, last := list[..|list| - 1], list[|list| - 1];
    if r == last {
      NotListed(front, r.id);
    } else {
      ListedOnce(front, r);
      assert last.id != r.id;
    }
  }

  lemma {:induction false} NotListed(list: seq<GroupRef>, gid: string)
    requires forall r :: r in list ==> r.id != gid
    ensures NamesListed(list, gid) == []
  {
    if list != [] {
      assert list[|list| - 1] in list;
      NotListed(list[..|list| - 1], gid);
    }
  }

  /** A reply of the form AuthOk with this identity, listing the group under these
      names, and then a UserOnline to v or not. */
  ghost predicate Announced(sent: seq<Sent>, c: nat, user: User, gid: string, names: seq<string>,
                            v: string, told: bool) {
    && |sent| > 0 && sent[0].conn == c && sent[0].via == "" && sent[0].packet.AuthOk?
    && sent[0].packet == AuthOk(user.id, user.username, user.isNull, sent[0].packet.groups)
    && NamesListed(sent[0].packet.groups, gid) == names
    && Received(sent[1..], v) == (if told then [UserOnline(user.id, user.username, user.publicKey)] else [])
  }

  /** A login is answered with the account's id, name and admin flag and exactly
      its groups, and told once to every other online user, with the key just
      given or else the stored one; one that is not accepted is told to no one,
      and answered with an error on its own connection, if at all. */
  lemma LoginResponseExact(env: Env, c: nat, s: Local, j: Json, gid: string, v: string)
    requires DbOk(env, s.g.db) && "" !in s.g.sessions.vals
    ensures s.g.log <= HandleLogin(env, c, s, j).g.log
    ensures
      var sent := HandleLogin(env, c, s, j).g.log[|s.g.log|..];
      match Effects.LoginAs(env, s, j)
      case Some(user) =>
        Announced(sent, c, if j.publicKey != "" then user.(publicKey := j.publicKey) else user, gid,
                  NameIfMember(s.g.db.data, gid, user.id), v, Online(s.g, v) && v != user.id)
      case None => sent == [] || (|sent| == 1 && sent[0] == Sent(c, "", sent[0].packet) && sent[0].packet.AuthError?)
  {
    match Effects.LoginAs(env, s, j)
    case Some(user) =>
      var me := Ident(user.id, user.username, true, user.isNull, s.me.logins + 1);
      NameOfUser(s.g.db.data.users, j.username);
      NameOfNobody(s.g.db.data.users, user.id);
      AnnounceExact(env, c, Local(SetSession(s.g, user.id, c), me), j.publicKey, user.isNull, gid, v);
    case None =>
  }

  /** A registration that is accepted is answered with a new id, no admin flag and
      a group list of exactly the groups with a default name, and told once to
      every other online user, with the key given. */
  lemma RegistrationResponseExact(env: Env, c: nat, s: Local, j: Json, gid: string, v: string)
    requires EnvOk(env) && DbInv(env, s.g.db) && "" !in s.g.sessions.vals
    requires forall u :: Online(s.g, u) ==> u in Ids(s.g.db.data.users)
    requires Effects.MayRegister(s, j) && j.username !in s.g.db.data.users && j.password.Some?
    ensures s.g.log <= HandleRegister(env, c, s, j).g.log
    ensures
      var groups := s.g.db.data.groups.vals;
      Announced(HandleRegister(env, c, s, j).g.log[|s.g.log|..], c,
                User(env.uuid(s.g.db.uuids), j.username, env.hash(j.password.value), j.publicKey, false),
                gid, if gid in groups && groups[gid].name in DEFAULT_GROUPS then [groups[gid].name] else [],
                v, Online(s.g, v))
  {
    var id := env.uuid(s.g.db.uuids);
    var (db', r) := RegisterUser(env, s.g.db, j.username, j.password);
    RegisterExact(env, s.g.db, j.username, j.password.value);
    RegisterKeeps(env, s.g.db, j.username, j.password);
    NewcomerNames(env, s.g.db, j.username, j.password.value, gid);
    NewSessionExact(env, c, s.(g := s.g.(db := db')), db'.data.users[j.username], j.publicKey, gid, v);
  }

  lemma NewcomerNames(env: Env, b: Db, name: string, password: string, gid: string)
    requires EnvOk(env) && DbOk(env, b) && name !in b.data.users
    ensures
      var groups := b.data.groups.vals;
      NameIfMember(RegisterUser(env, b, name, Some(password)).0.data, gid, env.uuid(b.uuids))
      == if gid in groups && groups[gid].name in DEFAULT_GROUPS then [groups[gid].name] else []
  {
    RegisterExact(env, b, name, password);
    NewcomerInNoGroup(env, b, env.uuid(b.uuids));
  }

  lemma NewSessionExact(env: Env, c: nat, s: Local, user: User, key: string, gid: string, v: string)
    requires DbOk(env, s.g.db) && "" !in s.g.sessions.vals && user.id !in s.g.sessions.vals
    requires user.username in s.g.db.data.users && s.g.db.data.users[user.username] == user
    requires user.publicKey == "" && !user.isNull
    ensures s.g.log <= NewSession(c, s, user.id, user.username, key).g.log
    ensures Announced(NewSession(c, s, user.id, user.username, key).g.log[|s.g.log|..], c,
                      user.(publicKey := key), gid, NameIfMember(s.g.db.data, gid, user.id), v, Online(s.g, v))
  {
    var me := Ident(user.id, user.username, true, s.me.isNull, s.me.logins + 1);
    NameOfUser(s.g.db.data.users, user.username);
    NameOfNobody(s.g.db.data.users, user.id);
    AnnounceExact(env, c, Local(SetSession(s.g, user.id, c), me), key, false, gid, v);
  }

  lemma {:induction false} SameGroups(d: Data, d': Data, u: string, k: nat)
    requires d'.groups == d.groups && d'.members == d.members && k <= |d.members.keys|
    ensures UserGroups(d', u, k) == UserGroups(d, u, k)
  {
    if k > 0 {
      SameGroups(d, d', u, k - 1);
    }
  }

  /** /ban tells its target, if online, once, on their own connection; the
      remaining members of the group who are online, once; the target is no
      longer one of them; and nobody else is told. */
  lemma BanAnnounced(env: Env, s: Local, gid: string, name: string, target: string, v: string)
    ensures
      var g' := Ban(env, s, gid, name, target).g;
      var notice := ErrorPacket("You have been banned from Nullchat by TheNull");
      var announcement := GroupMessage(SYSTEM_ID, SYSTEM_USER, Some(name + " has been banned from Nullchat by TheNull"),
                                       false, env.now(s.g.ticks), gid);
      && s.g.log <= g'.log
      && IsBanned(g'.db.data, target) && target !in GroupMembers(g'.db.data, gid)
      && Received(g'.log[|s.g.log|..], v)
         == (if v == target && Online(s.g, v) then [notice] else [])
          + (if v in GroupMembers(g'.db.data, gid) && Online(s.g, v) then [announcement] else [])
  {
    var g := s.g.(db := RemoveMember(BanUser(s.g.db, target), gid, target));
    var text := name + " has been banned from Nullchat by TheNull";
    NoticeThenSystemMessage(env, g, target, ErrorPacket("You have been banned from Nullchat by TheNull"), gid, text, v);
    BannedAndOut(s.g.db, gid, target);
  }

  lemma BannedAndOut(b: Db, gid: string, target: string)
    ensures
      var d := RemoveMember(BanUser(b, target), gid, target).data;
      IsBanned(d, target) && target !in GroupMembers(d, gid)
  {
  }

  lemma NoticeThenSystemMessage(env: Env, g: Globals, target: string, notice: Packet, gid: string,
                                text: string, v: string)
    ensures
      var g1 := if target in g.sessions.vals then Write(g, g.sessions.vals[target], target, notice) else g;
      var g' := SystemMessage(env, g1, gid, text);
      && g.log <= g'.log
      && Received(g'.log[|g.log|..], v)
         == (if v == target && Online(g, v) then [notice] else [])
          + (if v in GroupMembers(g.db.data, gid) && Online(g, v)
             then [GroupMessage(SYSTEM_ID, SYSTEM_USER, Some(text), false, env.now(g.ticks), gid)] else [])
  {
    var g1 := if target in g.sessions.vals then Write(g, g.sessions.vals[target], target, notice) else g;
    var g' := SystemMessage(env, g1, gid, text);
    SystemMessageExact(env, g1, gid, text, v);
    if target in g.sessions.vals {
      var e := Sent(g.sessions.vals[target], target, notice);
      ReceivedOne(e, v);
      ReceivedAfter(g.log, e, g'.log, v);
    }
  }

  /** A log that goes on after an entry: that entry first, then the rest. */
  lemma ReceivedAfter(log: seq<Sent>, e: Sent, log': seq<Sent>, v: string)
    requires log + [e] <= log'
    ensures log <= log'
    ensures Received(log'[|log|..], v) == Received([e], v) + Received(log'[|log| + 1..], v)
  {
    assert log'[|log|..] == [e] + log'[|log| + 1..];
    ReceivedConcat([e], log'[|log| + 1..], v);
  }

  // ----- the text of a command -----

  /** Joining the words of any text gives the text back. */
  lemma {:induction false} JoinSplit(s: string)
    ensures Join(Split(s)) == s
    decreases |s|
  {
    if s != "" {
      JoinSplit(s[1..]);
      var rest := Split(s[1..]);
      if s[0] == ' ' {
        assert Split(s)[1..] == rest;
      } else {
        JoinFirst([s[0]], rest);
      }
      assert s == [s[0]] + s[1..];
    }
  }

  /** Putting something in front of the first word puts it in front of the text. */
  lemma JoinFirst(x: string, parts: seq<string>)
    requires parts != []
    ensures Join([x + parts[0]] + parts[1..]) == x + Join(parts)
  {
    var parts' := [x + parts[0]] + parts[1..];
    assert parts'[1..] == parts[1..];
    if |parts| > 1 {
      var rest := " " + Join(parts[1..]);
      JoinHead(parts);
      JoinHead(parts');
      Associative(x, parts[0], rest);
    }
  }

  lemma JoinHead(parts: seq<string>)
    requires |parts| > 1
    ensures Join(parts) == parts[0] + (" " + Join(parts[1..]))
  {
    Associative(parts[0], " ", Join(parts[1..]));
  }

  lemma Associative(x: string, y: string, z: string)
    ensures x + (y + z) == x + y + z
  {
  }

  /** A word without spaces is one word. */
  lemma {:induction false} SplitOne(word: string)
    requires ' ' !in word
    ensures Split(word) == [word]
    decreases |word|
  {
    if word != "" {
      SplitOne(word[1..]);
      assert word == [word[0]] + word[1..];
    }
  }

  /** A word without spaces, a space and a text split into the word and the text's words. */
  lemma {:induction false} SplitWord(word: string, text: string)
    requires ' ' !in word
    ensures Split(word + " " + text) == [word] + Split(text)
    decreases |word|
  {
    var s := word + " " + text;
    if word == "" {
      assert s[0] == ' ' && s[1..] == text;
    } else {
      assert s[0] == word[0] && s[1..] == word[1..] + " " + text;
      SplitWord(word[1..], text);
      assert word == [word[0]] + word[1..];
    }
  }
}
