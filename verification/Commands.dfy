/** What an admin's commands do, read off their text. */
module Commands {
  import opened Wrappers
  import opened Framing
  import opened ChatModel
  import opened DbSpec
  import opened DbInvariants
  import opened SessionSpec
  import opened Requests
  import M = MessageNumbers
  import Broadcast

  /** The packet is an admin's message with this text, to a group they may post in. */
  predicate Says(env: Env, s: Local, f: Frame, j: Json, text: string) {
    Asks(env, f, M.GroupMessage, j) && MaySpeak(s, j.groupId) && s.me.isNull && j.content == Some(text)
  }

  /** The word is, in small letters, the command. */
  predicate IsWord(env: Env, word: string, command: string) {
    word != "" && word[0] == '/' && ' ' !in word && env.lower(word) == command
  }

  /** A word ends where this begins: at a space or at the end. */
  predicate EndsWord(tail: string) {
    tail == "" || tail[0] == ' '
  }

  // ----- words -----

  lemma SplitHead(word: string, tail: string)
    requires ' ' !in word && EndsWord(tail)
    ensures Split(word + tail) == [word] + if tail == "" then [] else Split(tail[1..])
  {
    if tail == "" {
      Broadcast.SplitOne(word);
      assert word + tail == word;
    } else {
      Broadcast.SplitWord(word, tail[1..]);
      assert word + tail == word + " " + tail[1..];
    }
  }

  lemma OneWord(env: Env, word: string, tail: string)
    requires ' ' !in word && EndsWord(tail)
    ensures
      var cmd := ParseCommand(env, word + tail);
      cmd.verb == VerbOf(env.lower(word)) && (tail == "" ==> cmd.arg1 == cmd.arg2 == cmd.rest == "")
  {
    SplitHead(word, tail);
  }

  lemma TwoWords(env: Env, word: string, arg: string, tail: string)
    requires ' ' !in word && ' ' !in arg && EndsWord(tail)
    ensures
      var cmd := ParseCommand(env, word + " " + arg + tail);
      cmd.verb == VerbOf(env.lower(word)) && cmd.arg1 == arg && (tail == "" ==> cmd.arg2 == "")
  {
    RegroupTwo(word, arg, tail);
    SplitHead(word, " " + (arg + tail));
    SplitHead(arg, tail);
    assert (" " + (arg + tail))[1..] == arg + tail;
  }

  lemma ThreeWords(env: Env, word: string, arg: string, arg': string, tail: string)
    requires ' ' !in word && ' ' !in arg && ' ' !in arg' && EndsWord(tail)
    ensures
      var cmd := ParseCommand(env, word + " " + arg + " " + arg' + tail);
      cmd.verb == VerbOf(env.lower(word)) && cmd.arg1 == arg && cmd.arg2 == arg'
  {
    var rest := " " + (arg' + tail);
    Regroup(word, arg, arg', tail);
    SplitHead(word, " " + (arg + rest));
    SplitHead(arg, rest);
    SplitHead(arg', tail);
    assert (" " + (arg + rest))[1..] == arg + rest && rest[1..] == arg' + tail;
  }

  lemma RegroupTwo(word: string, arg: string, tail: string)
    ensures word + " " + arg + tail == word + (" " + (arg + tail))
  {
  }

  lemma Regroup(word: string, arg: string, arg': string, tail: string)
    ensures word + " " + arg + " " + arg' + tail == word + (" " + (arg + (" " + (arg' + tail))))
  {
  }

  lemma Verbs()
    ensures VerbOf("/ban") == BanVerb && VerbOf("/unban") == UnbanVerb && VerbOf("/gban") == GroupBanVerb
    ensures VerbOf("/kick") == KickVerb && VerbOf("/help") == HelpVerb && VerbOf("/broadcast") == BroadcastVerb
  {
    assert |"/ban"| == 4 && |"/unban"| == 6 && |"/broadcast"| == 10;
    assert |"/gban"| == 5 && |"/kick"| == 5 && |"/help"| == 5;
    assert "/gban"[1] == 'g' && "/kick"[1] == 'k' && "/help"[1] == 'h';
  }

  lemma CommandHandled(env: Env, c: nat, s: Local, f: Frame, j: Json, text: string)
    requires Says(env, s, f, j, text) && text != "" && text[0] == '/'
    ensures Handle(env, c, s, f) == RunCommand(env, c, s, j.groupId, ParseCommand(env, text))
  {
    M.ServerServes(env, c, s, M.GroupMessage, j);
    MaySpeakExact(s, j.groupId);
  }

  // ----- what a command leaves alone, and what it announces -----

  /** Only the data, the clock and the log are different. */
  ghost predicate SameHolder(s: Local, s': Local) {
    s.g.log <= s'.g.log && s'.me == s.me && s'.g.sessions == s.g.sessions && s'.g.timers == s.g.timers
  }

  /** The announcement a member of the group gets if they are online. */
  function Announcement(env: Env, s: Local, d: Data, gid: string, text: string, v: string): seq<Packet> {
    if gid in d.members.vals && v in d.members.vals[gid].vals && v in s.g.sessions.vals
    then [GroupMessage(SYSTEM_ID, SYSTEM_USER, Some(text), false, env.now(s.g.ticks), gid)] else []
  }

  /** x is an account's name. */
  predicate IsName(s: Local, x: string) {
    x != "" && x in s.g.db.data.users
  }

  lemma NamedExact(env: Env, s: Local, x: string)
    requires DbOk(env, s.g.db)
    ensures x != "" && UserIdOf(s.g.db.data.users, x) != "" <==> IsName(s, x)
  {
  }

  lemma RemovedEntry(b: Db, h: string, w: string, g: string, u: string)
    ensures EntryOf(RemoveMember(b, h, w).data, g, u) == if g == h && u == w then None else EntryOf(b.data, g, u)
    ensures RemoveMember(b, h, w).data == b.data.(members := RemoveMember(b, h, w).data.members)
  {
  }

  // ----- the commands -----

  /** "/ban name": the account's user, if there is one, is banned and loses their
      entry in this group, and nothing else of the data is different; they are told
      on their own connection if online, and then whoever is left of the group. */
  lemma BanExact(env: Env, c: nat, s: Local, f: Frame, j: Json, word: string, name: string, tail: string,
                 g: string, u: string, v: string)
    requires DbInv(env, s.g.db) && Says(env, s, f, j, word + " " + name + tail) && IsWord(env, word, "/ban")
    requires ' ' !in name && EndsWord(tail)
    ensures
      var s', d := Handle(env, c, s, f), s.g.db.data;
      var d' := s'.g.db.data;
      if !IsName(s, name) then s' == s
      else
        var target := d.users[name].id;
        && SameHolder(s, s') && d' == d.(banned := d'.banned, members := d'.members)
        && (u in d'.banned <==> u in d.banned || u == target)
        && EntryOf(d', g, u) == (if g == j.groupId && u == target then None else EntryOf(d, g, u))
        && Broadcast.Received(New(s, s'), v) ==
             (if v == target && v in s.g.sessions.vals
              then [ErrorPacket("You have been banned from Nullchat by TheNull")] else [])
             + Announcement(env, s, d', j.groupId, name + " has been banned from Nullchat by TheNull", v)
  {
    TwoWords(env, word, name, tail);
    Verbs();
    CommandHandled(env, c, s, f, j, word + " " + name + tail);
    NamedExact(env, s, name);
    if IsName(s, name) {
      BanRuns(env, c, s, j.groupId, ParseCommand(env, word + " " + name + tail));
      BannedExact(env, s, j.groupId, name, s.g.db.data.users[name].id, g, u, v);
    }
  }

  lemma BanRuns(env: Env, c: nat, s: Local, gid: string, cmd: Command)
    requires cmd.verb == BanVerb && IsName(s, cmd.arg1) && s.g.db.data.users[cmd.arg1].id != ""
    ensures RunCommand(env, c, s, gid, cmd) == Ban(env, s, gid, cmd.arg1, s.g.db.data.users[cmd.arg1].id)
  {
  }

  lemma BannedExact(env: Env, s: Local, gid: string, name: string, target: string, g: string, u: string, v: string)
    ensures
      var s', d := Ban(env, s, gid, name, target), s.g.db.data;
      var d' := s'.g.db.data;
      && SameHolder(s, s') && d' == d.(banned := d'.banned, members := d'.members)
      && (u in d'.banned <==> u in d.banned || u == target)
      && EntryOf(d', g, u) == (if g == gid && u == target then None else EntryOf(d, g, u))
      && Broadcast.Received(New(s, s'), v) ==
           (if v == target && v in s.g.sessions.vals
            then [ErrorPacket("You have been banned from Nullchat by TheNull")] else [])
           + Announcement(env, s, d', gid, name + " has been banned from Nullchat by TheNull", v)
  {
    Broadcast.BanAnnounced(env, s, gid, name, target, v);
    RemovedEntry(BanUser(s.g.db, target), gid, target, g, u);
    BanKeepsRest(env, s, gid, name, target);
  }

  lemma BanKeepsRest(env: Env, s: Local, gid: string, name: string, target: string)
    ensures
      var s' := Ban(env, s, gid, name, target);
      && s'.me == s.me && s'.g.sessions == s.g.sessions && s'.g.timers == s.g.timers
      && s'.g.db == RemoveMember(BanUser(s.g.db, target), gid, target)
  {
  }

  /** "/unban name": the account's user, if there is one, is no longer banned, and
      that is announced to this group. */
  lemma UnbanExact(env: Env, c: nat, s: Local, f: Frame, j: Json, word: string, name: string, tail: string,
                   u: string, v: string)
    requires DbInv(env, s.g.db) && Says(env, s, f, j, word + " " + name + tail) && IsWord(env, word, "/unban")
    requires ' ' !in name && EndsWord(tail)
    ensures
      var s', d := Handle(env, c, s, f), s.g.db.data;
      var d' := s'.g.db.data;
      if !IsName(s, name) then s' == s
      else
        && SameHolder(s, s') && d' == d.(banned := d'.banned)
        && (u in d'.banned <==> u in d.banned && u != d.users[name].id)
        && Broadcast.Received(New(s, s'), v)
           == Announcement(env, s, d', j.groupId, name + " has been unbanned by TheNull", v)
  {
    TwoWords(env, word, name, tail);
    Verbs();
    CommandHandled(env, c, s, f, j, word + " " + name + tail);
    NamedExact(env, s, name);
    if IsName(s, name) {
      UnbanRuns(env, c, s, j.groupId, ParseCommand(env, word + " " + name + tail));
      UnbannedExact(env, s, j.groupId, name, s.g.db.data.users[name].id, u, v);
    }
  }

  lemma UnbanRuns(env: Env, c: nat, s: Local, gid: string, cmd: Command)
    requires cmd.verb == UnbanVerb && IsName(s, cmd.arg1) && s.g.db.data.users[cmd.arg1].id != ""
    ensures RunCommand(env, c, s, gid, cmd) == Unbanned(env, s, gid, cmd.arg1, s.g.db.data.users[cmd.arg1].id)
  {
  }

  /** The call and the announcement that make up an unban. */
  function Unbanned(env: Env, s: Local, gid: string, name: string, target: string): Local {
    s.(g := SystemMessage(env, s.g.(db := UnbanUser(s.g.db, target)), gid, name + " has been unbanned by TheNull"))
  }

  lemma UnbannedExact(env: Env, s: Local, gid: string, name: string, target: string, u: string, v: string)
    ensures
      var s', d := Unbanned(env, s, gid, name, target), s.g.db.data;
      var d' := s'.g.db.data;
      && SameHolder(s, s') && d' == d.(banned := d'.banned)
      && (u in d'.banned <==> u in d.banned && u != target)
      && Broadcast.Received(New(s, s'), v)
         == Announcement(env, s, d', gid, name + " has been unbanned by TheNull", v)
  {
    Broadcast.SystemMessageExact(env, s.g.(db := UnbanUser(s.g.db, target)), gid,
                                 name + " has been unbanned by TheNull", v);
  }

  /** "/gban general name": the account's user is banned from the first group named
      general and loses their entry there, and that is announced to this group. Any
      other first word, an unknown name, or no group named general: nothing. */
  lemma GroupBanExact(env: Env, c: nat, s: Local, f: Frame, j: Json, word: string, where: string, name: string,
                      tail: string, h: string, g: string, u: string, v: string)
    requires DbInv(env, s.g.db) && Says(env, s, f, j, word + " " + where + " " + name + tail)
    requires IsWord(env, word, "/gban") && ' ' !in where && ' ' !in name && EndsWord(tail)
    requires IsGeneral(s.g.db.data, h) || (h == "" && NoneGeneral(s.g.db.data))
    ensures
      var s', d := Handle(env, c, s, f), s.g.db.data;
      var d' := s'.g.db.data;
      if where != GENERAL_GROUP || !IsName(s, name) || h == "" then s' == s
      else
        var target := d.users[name].id;
        && SameHolder(s, s') && d' == d.(groupBans := d'.groupBans, members := d'.members)
        && (BannedFrom(d', g, u) <==> BannedFrom(d, g, u) || (g == h && u == target))
        && EntryOf(d', g, u) == (if g == h && u == target then None else EntryOf(d, g, u))
        && Broadcast.Received(New(s, s'), v)
           == Announcement(env, s, d', j.groupId, name + " has been banned from " + where + " by TheNull", v)
  {
    ThreeWords(env, word, where, name, tail);
    Verbs();
    CommandHandled(env, c, s, f, j, word + " " + where + " " + name + tail);
    NamedExact(env, s, name);
    GeneralExact(s.g.db.data);
    NoGroupUnnamed(env, s.g.db);
    if where == GENERAL_GROUP && IsName(s, name) && h != "" {
      GroupBanRuns(env, c, s, j.groupId, ParseCommand(env, word + " " + where + " " + name + tail), h);
      GroupBannedExact(env, s, j.groupId, where, name, h, s.g.db.data.users[name].id, g, u, v);
    }
  }

  lemma NoGroupUnnamed(env: Env, b: Db)
    requires DbOk(env, b)
    ensures "" !in b.data.groups.vals && GENERAL_GROUP != ""
  {
  }

  lemma GroupBanRuns(env: Env, c: nat, s: Local, gid: string, cmd: Command, h: string)
    requires cmd.verb == GroupBanVerb && cmd.arg1 == GENERAL_GROUP && IsName(s, cmd.arg2)
    requires General(s.g.db.data) == h != ""
    requires s.g.db.data.users[cmd.arg2].id != ""
    ensures
      RunCommand(env, c, s, gid, cmd)
      == GroupBanned(env, s, gid, cmd.arg1, cmd.arg2, h, s.g.db.data.users[cmd.arg2].id)
  {
  }

  /** The two calls and the announcement that make up a group ban. */
  function GroupBanned(env: Env, s: Local, gid: string, where: string, name: string, h: string, target: string): Local {
    s.(g := SystemMessage(env, s.g.(db := RemoveMember(BanFromGroup(s.g.db, h, target), h, target)), gid,
                          name + " has been banned from " + where + " by TheNull"))
  }

  lemma GroupBannedExact(env: Env, s: Local, gid: string, where: string, name: string, h: string, target: string,
                         g: string, u: string, v: string)
    ensures
      var s', d := GroupBanned(env, s, gid, where, name, h, target), s.g.db.data;
      var d' := s'.g.db.data;
      && SameHolder(s, s') && d' == d.(groupBans := d'.groupBans, members := d'.members)
      && (BannedFrom(d', g, u) <==> BannedFrom(d, g, u) || (g == h && u == target))
      && EntryOf(d', g, u) == (if g == h && u == target then None else EntryOf(d, g, u))
      && Broadcast.Received(New(s, s'), v)
         == Announcement(env, s, d', gid, name + " has been banned from " + where + " by TheNull", v)
  {
    var b1 := BanFromGroup(s.g.db, h, target);
    BannedFromExact(s.g.db, h, target, g, u);
    RemovedEntry(b1, h, target, g, u);
    Broadcast.SystemMessageExact(env, s.g.(db := RemoveMember(b1, h, target)), gid,
                                 name + " has been banned from " + where + " by TheNull", v);
  }

  lemma BannedFromExact(b: Db, h: string, target: string, g: string, u: string)
    ensures
      var d' := BanFromGroup(b, h, target).data;
      && d' == b.data.(groupBans := d'.groupBans) && EntryOf(d', g, u) == EntryOf(b.data, g, u)
      && (BannedFrom(d', g, u) <==> BannedFrom(b.data, g, u) || (g == h && u == target))
  {
  }

  /** "/kick", whatever follows: the sender, and no one else, loses their entry in
      the first group named general, and is told so on their own connection. */
  lemma KickExact(env: Env, c: nat, s: Local, f: Frame, j: Json, word: string, tail: string, g: string, u: string)
    requires DbInv(env, s.g.db) && Says(env, s, f, j, word + tail) && IsWord(env, word, "/kick") && EndsWord(tail)
    ensures
      var s', d := Handle(env, c, s, f), s.g.db.data;
      var d' := s'.g.db.data;
      && s' == s.(g := s.g.(db := s'.g.db,
                            log := s.g.log + [Sent(c, "", ErrorPacket("You have been kicked from the server"))]))
      && d' == d.(members := d'.members)
      && EntryOf(d', g, u) == (if IsGeneral(d, g) && u == s.me.userId then None else EntryOf(d, g, u))
  {
    OneWord(env, word, tail);
    Verbs();
    CommandHandled(env, c, s, f, j, word + tail);
    GeneralExact(s.g.db.data);
    KickRuns(env, c, s, j.groupId, ParseCommand(env, word + tail));
    LeftGeneral(s.g.db, s.me.userId, g, u);
  }

  lemma KickRuns(env: Env, c: nat, s: Local, gid: string, cmd: Command)
    requires cmd.verb == KickVerb
    ensures
      RunCommand(env, c, s, gid, cmd)
      == s.(g := s.g.(db := LeaveGeneral(s.g.db, s.me.userId),
                      log := s.g.log + [Sent(c, "", ErrorPacket("You have been kicked from the server"))]))
  {
  }

  lemma LeftGeneral(b: Db, w: string, g: string, u: string)
    ensures
      var d' := LeaveGeneral(b, w).data;
      && d' == b.data.(members := d'.members)
      && EntryOf(d', g, u)
         == if General(b.data) != "" && g == General(b.data) && u == w then None else EntryOf(b.data, g, u)
  {
    RemovedEntry(b, General(b.data), w, g, u);
  }

  /** "/help", whatever follows, announces the list of commands to this group. */
  lemma HelpExact(env: Env, c: nat, s: Local, f: Frame, j: Json, word: string, tail: string, v: string)
    requires Says(env, s, f, j, word + tail) && IsWord(env, word, "/help") && EndsWord(tail)
    ensures
      var s' := Handle(env, c, s, f);
      && OnlySent(s, s')
      && Broadcast.Received(New(s, s'), v) == Announcement(env, s, s.g.db.data, j.groupId,
           "commands: /ban <user> /unban <user> /gban <group> <user> /broadcast <msg>", v)
  {
    OneWord(env, word, tail);
    Verbs();
    CommandHandled(env, c, s, f, j, word + tail);
    Broadcast.SystemMessageExact(env, s.g, j.groupId, HELP_TEXT, v);
  }

  /** "/broadcast text": exactly the text, inner and repeated spaces kept, after the
      marker, is announced to the first group named general; without a text or such
      a group, nothing is done. */
  lemma BroadcastDeliversText(env: Env, c: nat, s: Local, f: Frame, j: Json, word: string, text: string,
                              h: string, v: string)
    requires DbInv(env, s.g.db) && Says(env, s, f, j, word + " " + text) && IsWord(env, word, "/broadcast")
    requires IsGeneral(s.g.db.data, h) || (h == "" && NoneGeneral(s.g.db.data))
    ensures
      var s' := Handle(env, c, s, f);
      if text == "" || h == "" then s' == s
      else
        && OnlySent(s, s')
        && Broadcast.Received(New(s, s'), v) == Announcement(env, s, s.g.db.data, h, "\U{1F4E2} " + text, v)
  {
    Verbs();
    Rest(env, word, text);
    CommandHandled(env, c, s, f, j, word + " " + text);
    GeneralExact(s.g.db.data);
    BroadcastRuns(env, c, s, j.groupId, ParseCommand(env, word + " " + text), h);
    if text != "" && h != "" {
      Announced(env, s, h, BROADCAST_MARK + text, v);
    }
  }

  lemma BroadcastRuns(env: Env, c: nat, s: Local, gid: string, cmd: Command, h: string)
    requires cmd.verb == BroadcastVerb && General(s.g.db.data) == h
    ensures RunCommand(env, c, s, gid, cmd)
         == if cmd.rest != "" && h != "" then s.(g := SystemMessage(env, s.g, h, BROADCAST_MARK + cmd.rest)) else s
  {
  }

  /** An announcement and nothing else. */
  lemma Announced(env: Env, s: Local, gid: string, text: string, v: string)
    ensures
      var s' := s.(g := SystemMessage(env, s.g, gid, text));
      OnlySent(s, s') && Broadcast.Received(New(s, s'), v) == Announcement(env, s, s.g.db.data, gid, text, v)
  {
    Broadcast.SystemMessageExact(env, s.g, gid, text, v);
  }

  lemma Rest(env: Env, word: string, text: string)
    requires ' ' !in word
    ensures
      var cmd := ParseCommand(env, word + " " + text);
      cmd.verb == VerbOf(env.lower(word)) && cmd.rest == text
  {
    Broadcast.SplitWord(word, text);
    Broadcast.JoinSplit(text);
    assert ([word] + Split(text))[1..] == Split(text);
  }

  /** A command that needs words after it and has none does nothing, ... */
  lemma BareCommandExact(env: Env, c: nat, s: Local, f: Frame, j: Json, word: string)
    requires Says(env, s, f, j, word) && word != "" && word[0] == '/' && ' ' !in word
    requires env.lower(word) != "/kick" && env.lower(word) != "/help"
    ensures Handle(env, c, s, f) == s
  {
    OneWord(env, word, "");
    assert word + "" == word;
    CommandHandled(env, c, s, f, j, word);
  }

  /** ...nor does "/gban" with one word, ... */
  lemma ShortGroupBanExact(env: Env, c: nat, s: Local, f: Frame, j: Json, word: string, where: string)
    requires Says(env, s, f, j, word + " " + where) && IsWord(env, word, "/gban") && ' ' !in where
    ensures Handle(env, c, s, f) == s
  {
    TwoWords(env, word, where, "");
    assert word + " " + where + "" == word + " " + where;
    Verbs();
    CommandHandled(env, c, s, f, j, word + " " + where);
  }

  /** ...nor an unknown command, which is not posted either. */
  lemma UnknownCommandExact(env: Env, c: nat, s: Local, f: Frame, j: Json, word: string, tail: string)
    requires Says(env, s, f, j, word + tail) && word != "" && word[0] == '/' && ' ' !in word && EndsWord(tail)
    requires env.lower(word) !in ["/ban", "/unban", "/gban", "/kick", "/help", "/broadcast"]
    ensures Handle(env, c, s, f) == s
  {
    OneWord(env, word, tail);
    CommandHandled(env, c, s, f, j, word + tail);
    UnknownVerbs(env.lower(word));
  }

  lemma UnknownVerbs(word: string)
    requires word !in ["/ban", "/unban", "/gban", "/kick", "/help", "/broadcast"]
    ensures VerbOf(word) == UnknownVerb
  {
  }
}
