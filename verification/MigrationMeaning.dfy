/** What the session merge keeps, and what a downgrade after it brings back. */
module MigrationMeaning {
  import opened Migration
  import opened Options

  function SessionIds(t: Tables): set<string> {
    if t.session.Some? then t.session.value.Keys else {}
  }

  lemma UpgradedIds(t: Tables)
    ensures Upgraded(t).conversation.Keys == t.conversation.Keys + SessionIds(t)
  {
    hide Extended, Elements;
  }

  lemma UpgradedAt(t: Tables, id: string)
    requires id in t.conversation || id in SessionIds(t)
    ensures id in Upgraded(t).conversation
    ensures Upgraded(t).conversation[id] ==
              if id !in t.conversation then NewConversation(t.session.value[id])
              else t.conversation[id].(fields :=
                if id in SessionIds(t) then t.session.value[id].fields
                else Extended(t.conversation[id].fields, Elements(COLUMNS)))
  {
    hide Extended, Elements;
  }

  /** No row is lost or doubled. A conversation that matches a session takes the seven fields
      from it; one that matches none keeps what it had, and new columns hold their default: the
      version is "1", the others are NULL. */
  lemma UpgradeKeepsRows(t: Tables)
    requires Valid(t)
    ensures Valid(Upgraded(t))
    ensures Upgraded(t).conversation.Keys == t.conversation.Keys + SessionIds(t)
    ensures forall id | id in t.conversation ::
              var was, now := t.conversation[id], Upgraded(t).conversation[id];
              && now == was.(fields := now.fields)
              && forall c :: c in now.fields && now.fields[c] ==
                   if id in SessionIds(t) then t.session.value[id].fields[c]
                   else if c in was.fields then was.fields[c]
                   else if c == Version then Value("1") else NULL
  {
    UpgradedIds(t);
    assert Upgraded(t).columns == Elements(COLUMNS) && Upgraded(t).session == None by {
      forall c: Column { ColumnsAreAll(c); }
    }
    var u := Upgraded(t).conversation;
    hide Upgraded, Extended, Elements;
    forall id | id in u
      ensures u[id].fields.Keys == Elements(COLUMNS)
    {
      UpgradedFields(t, id);
    }
    forall id | id in t.conversation
      ensures u[id] == t.conversation[id].(fields := u[id].fields)
      ensures forall c :: c in u[id].fields && u[id].fields[c] ==
                if id in SessionIds(t) then t.session.value[id].fields[c]
                else if c in t.conversation[id].fields then t.conversation[id].fields[c] else ServerDefault(c)
    {
      UpgradedAt(t, id);
      UpgradedFields(t, id);
    }
  }

  /** A session without a conversation becomes one, with its name, creation time and fields, and
      counts nothing; then the session table is gone. All columns exist, and four of them have
      an index. */
  lemma UpgradeAddsSessions(t: Tables)
    requires Valid(t)
    ensures forall id | id in SessionIds(t) && id !in t.conversation ::
              && id in Upgraded(t).conversation
              && var s := t.session.value[id];
                 Upgraded(t).conversation[id] == Conversation(s.agentName, NULL, s.createdAt, NULL, 0, 0.0, s.fields)
    ensures Upgraded(t).session == None && forall c: Column :: c in Upgraded(t).columns
    ensures Upgraded(t).indexes == t.indexes + {PoolId, ProjectId, ParentId, LastActive}
  {
    forall c: Column ensures c in Elements(COLUMNS) { ColumnsAreAll(c); }
    hide Extended, Elements;
    forall id | id in SessionIds(t) && id !in t.conversation
      ensures id in Upgraded(t).conversation && Upgraded(t).conversation[id] == NewConversation(t.session.value[id])
    {
      UpgradedAt(t, id);
    }
  }

  lemma UpgradedFields(t: Tables, id: string)
    requires Valid(t) && (id in t.conversation || id in SessionIds(t))
    ensures id in Upgraded(t).conversation && Upgraded(t).conversation[id].fields.Keys == Elements(COLUMNS)
    ensures forall c :: c in Upgraded(t).conversation[id].fields
    ensures id in t.conversation && id !in SessionIds(t) ==>
              forall c :: Upgraded(t).conversation[id].fields[c] ==
                if c in t.conversation[id].fields then t.conversation[id].fields[c] else ServerDefault(c)
  {
    hide Upgraded, Extended, Elements;
    UpgradedAt(t, id);
    if id in t.conversation {
      ExtendedKeys(t.conversation[id].fields, Elements(COLUMNS));
    }
    forall c ensures c in Elements(COLUMNS) { ColumnsAreAll(c); }
  }

  lemma ExtendedKeys(f: Fields, cs: set<Column>)
    ensures Extended(f, cs).Keys == f.Keys + cs
    ensures forall c | c in f :: Extended(f, cs)[c] == f[c]
    ensures forall c | c in cs && c !in f :: Extended(f, cs)[c] == ServerDefault(c)
  {
  }

  // ---- Tokens and cost ------------------------------------------------------------

  function Tokens(c: Conversation): real { c.totalTokens as real }

  function Cost(c: Conversation): real { c.totalCost }

  ghost function Total(rows: Conversations, f: Conversation -> real): real
    decreases |rows|
  {
    if rows == map[] then 0.0
    else
      var id :| id in rows;
      f(rows[id]) + Total(rows - {id}, f)
  }

  /** The order of summation does not matter. */
  lemma {:induction false} TotalWithout(rows: Conversations, f: Conversation -> real, id: string)
    requires id in rows
    ensures Total(rows, f) == f(rows[id]) + Total(rows - {id}, f)
    decreases |rows|
  {
    var first :| first in rows && Total(rows, f) == f(rows[first]) + Total(rows - {first}, f);
    if first != id {
      TotalWithout(rows - {first}, f, id);
      TotalWithout(rows - {id}, f, first);
      assert rows - {first} - {id} == rows - {id} - {first};
    }
  }

  /** Rows that count nothing do not change a total. */
  lemma {:induction false} TotalOfMore(rows: Conversations, more: Conversations, f: Conversation -> real)
    requires rows.Keys <= more.Keys
    requires forall id | id in more :: f(more[id]) == if id in rows then f(rows[id]) else 0.0
    ensures Total(more, f) == Total(rows, f)
    decreases |more|
  {
    if more == map[] {
      assert rows == map[];
    } else {
      var id :| id in more;
      TotalWithout(more, f, id);
      if id in rows {
        TotalWithout(rows, f, id);
      } else {
        assert rows - {id} == rows;
      }
      TotalOfMore(rows - {id}, more - {id}, f);
    }
  }

  /** Neither the upgrade nor the downgrade changes the total tokens or the total cost. */
  lemma TotalsAreConserved(t: Tables)
    ensures Total(Upgraded(t).conversation, Tokens) == Total(t.conversation, Tokens)
    ensures Total(Upgraded(t).conversation, Cost) == Total(t.conversation, Cost)
    ensures Total(Downgraded(t).conversation, Tokens) == Total(t.conversation, Tokens)
    ensures Total(Downgraded(t).conversation, Cost) == Total(t.conversation, Cost)
  {
    var rows, down := Upgraded(t).conversation, Downgraded(t).conversation;
    assert down.Keys == t.conversation.Keys && forall id | id in down ::
      down[id] == t.conversation[id].(fields := down[id].fields);
    hide Upgraded, Downgraded, Extended, Elements;
    UpgradedIds(t);
    forall id | id in rows
      ensures Tokens(rows[id]) == if id in t.conversation then Tokens(t.conversation[id]) else 0.0
      ensures Cost(rows[id]) == if id in t.conversation then Cost(t.conversation[id]) else 0.0
    {
      UpgradedAt(t, id);
    }
    TotalOfMore(t.conversation, rows, Tokens);
    TotalOfMore(t.conversation, rows, Cost);
    TotalOfMore(t.conversation, down, Tokens);
    TotalOfMore(t.conversation, down, Cost);
  }

  // ---- Round trips ----------------------------------------------------------------

  /** It has a pool, a project or a cwd. */
  predicate InUse(f: Fields) {
    || (PoolId in f && f[PoolId] != NULL)
    || (ProjectId in f && f[ProjectId] != NULL)
    || (Cwd in f && f[Cwd] != NULL)
  }

  /** The fields of a row after the upgrade: those of its session, or its own with defaults. */
  lemma InUseAfterwards(t: Tables, id: string)
    requires Valid(t) && (id in t.conversation || id in SessionIds(t))
    ensures id in Upgraded(t).conversation
    ensures HasSession(Upgraded(t).conversation[id].fields) <==>
              InUse(if id in SessionIds(t) then t.session.value[id].fields else t.conversation[id].fields)
  {
    hide Upgraded, Extended, Elements;
    UpgradedAt(t, id);
    UpgradedFields(t, id);
  }

  /** A session with the name, title and time of its conversation; without one, it has its own name
      and time, and no title. */
  function Recreated(id: string, s: Session, rows: Conversations): Session {
    if id in rows then Session(rows[id].agentName, rows[id].title, rows[id].startTime, s.fields)
    else Session(s.agentName, NULL, s.createdAt, s.fields)
  }

  /** The sessions that a downgrade after the upgrade creates: those of the old table with a
      pool, project or cwd, and the other conversations that already had one of these. Each old
      one has its seven fields back. */
  lemma DowngradeRecreates(t: Tables)
    requires Valid(t) && t.session.Some?
    ensures var s := t.session.value;
            var back := Downgraded(Upgraded(t)).session.value;
            && (forall id | id in s :: id in back <==> InUse(s[id].fields))
            && (forall id | id !in s :: id in back <==> id in t.conversation && InUse(t.conversation[id].fields))
            && (forall id | id in back && id in s :: back[id] == Recreated(id, s[id], t.conversation))
  {
    var u := Upgraded(t).conversation;
    var back := Downgraded(Upgraded(t)).session.value;
    assert back == SessionsOf(u);
    hide Upgraded, Downgraded, HasSession, InUse, Extended, Elements;
    UpgradedIds(t);
    forall id | id in u
      ensures HasSession(u[id].fields) <==>
                InUse(if id in SessionIds(t) then t.session.value[id].fields else t.conversation[id].fields)
      ensures id in SessionIds(t) ==> OldSession(u[id]) == Recreated(id, t.session.value[id], t.conversation)
    {
      InUseAfterwards(t, id);
      UpgradedAt(t, id);
    }
  }

  /** Every session has all seven fields, so that in the old table `InUse` says that one of the
      three is not NULL. */
  lemma InUseOfSession(t: Tables, id: string)
    requires Valid(t) && id in SessionIds(t)
    ensures var f := t.session.value[id].fields;
            && PoolId in f && ProjectId in f && Cwd in f
            && (InUse(f) <==> f[PoolId] != NULL || f[ProjectId] != NULL || f[Cwd] != NULL)
  {
    forall c: Column ensures c in Elements(COLUMNS) { ColumnsAreAll(c); }
    hide Elements;
  }

  /** Whether the downgrade writes this session back as it was. */
  predicate ComesBack(id: string, s: Session, rows: Conversations) {
    && InUse(s.fields)
    && if id in rows then rows[id].agentName == s.agentName && rows[id].title == s.title
      && rows[id].startTime == s.createdAt
       else s.title == NULL
  }

  /** The session table comes back exactly if every session had a pool, project or cwd, and its
      name, title and creation time were also those of its conversation (or, without one, its
      title was NULL); and no other conversation already had a pool, project or cwd, which is so
      when the upgrade added the columns. */
  lemma SessionsComeBackExactlyIf(t: Tables)
    requires Valid(t) && t.session.Some?
    ensures Downgraded(Upgraded(t)).session == t.session <==>
            && (forall id | id in t.session.value :: ComesBack(id, t.session.value[id], t.conversation))
            && (forall id | id in t.conversation && id !in t.session.value :: !InUse(t.conversation[id].fields))
    ensures t.columns == {} ==> forall id | id in t.conversation :: !InUse(t.conversation[id].fields)
  {
    var s, back := t.session.value, Downgraded(Upgraded(t)).session;
    assert back.Some?;
    assert t.columns == {} ==> forall id | id in t.conversation :: t.conversation[id].fields == map[];
    assert forall f: Fields :: f == map[] ==> !InUse(f);
    hide Upgraded, Downgraded, InUse;
    DowngradeRecreates(t);
    SameMap(back.value, s);
    forall id | id in s
      ensures id in back.value && back.value[id] == s[id] <==> ComesBack(id, s[id], t.conversation)
    {
    }
  }

  /** For instance, a session without a pool, project and cwd is lost. */
  lemma BareSessionIsLost(id: string, s: Session)
    requires s.fields == map c | c in COLUMNS :: ServerDefault(c)
    ensures var t := Tables(map[], {}, {}, Some(map[id := s]));
            Valid(t) && Downgraded(Upgraded(t)).session != t.session
  {
    var t := Tables(map[], {}, {}, Some(map[id := s]));
    assert s.fields.Keys == Elements(COLUMNS) && !InUse(s.fields);
    hide Upgraded, Downgraded, InUse, Elements;
    assert Valid(t);
    SessionsComeBackExactlyIf(t);
    assert id in t.session.value && !ComesBack(id, s, t.conversation);
  }

  /** The conversations come back without the seven fields, next to one for every session that
      had none. So the table is the same exactly if every session had a conversation and no
      conversation had any of the seven columns; if some of the columns were there before the
      upgrade, the downgrade drops what they held. */
  lemma ConversationsComeBack(t: Tables)
    requires Valid(t)
    ensures var back := Downgraded(Upgraded(t)).conversation;
            && back.Keys == t.conversation.Keys + SessionIds(t)
            && (forall id | id in t.conversation :: back[id] == t.conversation[id].(fields := map[]))
            && (back == t.conversation <==>
                  SessionIds(t) <= t.conversation.Keys && (t.columns == {} || t.conversation == map[]))
  {
    var back := Downgraded(Upgraded(t)).conversation;
    assert back == ReducedRows(Upgraded(t).conversation, Elements(COLUMNS));
    assert forall id | id in t.conversation :: t.conversation[id].fields == map[] <==> t.columns == {};
    hide Upgraded, Downgraded, HasSession, Extended, Elements;
    UpgradedIds(t);
    assert back.Keys == t.conversation.Keys + SessionIds(t);
    hide ReducedRows, SessionIds;
    forall id | id in t.conversation ensures back[id] == t.conversation[id].(fields := map[]) {
      RowComesBack(t, id);
    }
    SameRows(back, t.conversation, SessionIds(t), t.columns == {});
  }

  lemma DowngradeDropsColumns(t: Tables)
    ensures Downgraded(t).columns == {}
              && Downgraded(t).indexes == t.indexes - {PoolId, ProjectId, ParentId, LastActive}
  {
    forall c: Column ensures c in Elements(COLUMNS) { ColumnsAreAll(c); }
    hide Elements, HasSession;
  }

  lemma SameRows(back: Conversations, rows: Conversations, more: set<string>, bare: bool)
    requires back.Keys == rows.Keys + more && forall id | id in rows :: back[id] == rows[id].(fields := map[])
    requires forall id | id in rows :: rows[id].fields == map[] <==> bare
    ensures back == rows <==> more <= rows.Keys && (bare || rows == map[])
  {
  }

  lemma SameMap(other: Sessions, s: Sessions)
    ensures other == s <==> other.Keys <= s.Keys && forall id | id in s :: id in other && other[id] == s[id]
  {
  }

  lemma RowComesBack(t: Tables, id: string)
    requires Valid(t) && id in t.conversation
    ensures id in Upgraded(t).conversation
    ensures ReducedRows(Upgraded(t).conversation, Elements(COLUMNS))[id] == t.conversation[id].(fields := map[])
  {
    hide Upgraded, Extended, Elements;
    UpgradedAt(t, id);
    var now := Upgraded(t).conversation[id].fields;
    forall c | c in now ensures c in Elements(COLUMNS) { ColumnsAreAll(c); }
    assert now - Elements(COLUMNS) == map[];
  }

  /** Without a session table a second upgrade does nothing. */
  lemma UpgradeTwice(t: Tables)
    requires Valid(t)
    ensures Upgraded(Upgraded(t)) == Upgraded(t)
  {
    var u := Upgraded(t);
    assert u.session == None && u.columns == t.columns + Elements(COLUMNS) && u.indexes == t.indexes + INDEXED;
    hide Upgraded, Extended, Elements;
    UpgradedIds(t);
    forall id | id in u.conversation
      ensures Extended(u.conversation[id].fields, Elements(COLUMNS)) == u.conversation[id].fields
    {
      UpgradedFields(t, id);
      ExtendedKeys(u.conversation[id].fields, Elements(COLUMNS));
    }
    ExtendedSame(u.conversation);
    UpgradedWithout(u);
  }

  lemma ExtendedSame(rows: Conversations)
    requires forall id | id in rows :: Extended(rows[id].fields, Elements(COLUMNS)) == rows[id].fields
    ensures ExtendedRows(rows, Elements(COLUMNS)) == rows
  {
    hide Extended, Elements;
  }

  lemma UpgradedWithout(t: Tables)
    requires t.session.None?
    ensures Upgraded(t) == Tables(ExtendedRows(t.conversation, Elements(COLUMNS)), t.columns + Elements(COLUMNS),
              t.indexes + INDEXED, None)
  {
  }
}
