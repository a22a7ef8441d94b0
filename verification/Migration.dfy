/** The migration that merges the `session` table into `conversation`, and its downgrade. */
module Migration {
  import opened Lists
  import opened Options

  /** A nullable SQL value. */
  datatype Sql = NULL | Value(v: string)

  /** The columns that move from `session` to `conversation`. */
  datatype Column = PoolId | ProjectId | ParentId | Version | Cwd | LastActive | MetadataJson

  /** In the order in which they are added. */
  const COLUMNS: seq<Column> := [PoolId, ProjectId, ParentId, Version, Cwd, LastActive, MetadataJson]
  const INDEXED: set<Column> := {PoolId, ProjectId, ParentId, LastActive}

  function Elements(cs: seq<Column>): set<Column> {
    set c | c in cs
  }

  lemma ColumnsAreAll(c: Column)
    ensures c in COLUMNS && c in Elements(COLUMNS)
  {
    match c
    case PoolId => assert COLUMNS[0] == c;
    case ProjectId => assert COLUMNS[1] == c;
    case ParentId => assert COLUMNS[2] == c;
    case Version => assert COLUMNS[3] == c;
    case Cwd => assert COLUMNS[4] == c;
    case LastActive => assert COLUMNS[5] == c;
    case MetadataJson => assert COLUMNS[6] == c;
  }

  type Fields = map<Column, Sql>

  /** A row of `conversation`; `fields` holds those of the seven columns that exist. */
  datatype Conversation = Conversation(agentName: string, title: Sql, startTime: Sql, model: Sql,
                                       totalTokens: int, totalCost: real, fields: Fields)

  datatype Session = Session(agentName: string, title: Sql, createdAt: Sql, fields: Fields)

  /** A table, by primary key. */
  type Conversations = map<string, Conversation>
  type Sessions = map<string, Session>

  /** Both tables, with the columns and indexes that exist. */
  datatype Tables = Tables(conversation: Conversations, columns: set<Column>, indexes: set<Column>,
      session: Option<Sessions>)

  ghost predicate RowsHave(rows: Conversations, columns: set<Column>) {
    forall id | id in rows :: rows[id].fields.Keys == columns
  }

  ghost predicate Valid(t: Tables) {
    && RowsHave(t.conversation, t.columns)
    && (t.session.Some? ==> forall id | id in t.session.value :: t.session.value[id].fields.Keys == Elements(COLUMNS))
  }

  /** What a new column holds in the rows that are already there. */
  function ServerDefault(c: Column): Sql {
    if c == Version then Value("1") else NULL
  }

  /** `ALTER TABLE conversation ADD COLUMN c`. */
  function WithColumn(rows: Conversations, c: Column): Conversations {
    map id | id in rows :: rows[id].(fields := rows[id].fields[c := ServerDefault(c)])
  }

  /** `ALTER TABLE conversation DROP COLUMN c`. */
  function WithoutColumn(rows: Conversations, c: Column): Conversations {
    map id | id in rows :: rows[id].(fields := rows[id].fields - {c})
  }

  /** The fields once the columns `cs` exist. */
  function Extended(f: Fields, cs: set<Column>): Fields {
    f + map c | c in cs && c !in f :: ServerDefault(c)
  }

  function ExtendedRows(rows: Conversations, cs: set<Column>): Conversations {
    map id | id in rows :: rows[id].(fields := Extended(rows[id].fields, cs))
  }

  function ReducedRows(rows: Conversations, cs: set<Column>): Conversations {
    map id | id in rows :: rows[id].(fields := rows[id].fields - cs)
  }

  /** `UPDATE ... SET ... FROM session s WHERE conversation.id = s.session_id`. */
  function UpdatedRows(rows: Conversations, s: Sessions): Conversations {
    map id | id in rows :: if id in s then rows[id].(fields := s[id].fields) else rows[id]
  }

  /** The row that a session without a conversation becomes. */
  function NewConversation(s: Session): Conversation {
    Conversation(s.agentName, NULL, s.createdAt, NULL, 0, 0.0, s.fields)
  }

  /** `INSERT ... WHERE s.session_id NOT IN (SELECT id FROM conversation)`. */
  function InsertedRows(rows: Conversations, s: Sessions): Conversations {
    rows + map id | id in s && id !in rows :: NewConversation(s[id])
  }

  function Upgraded(t: Tables): Tables {
    var rows := ExtendedRows(t.conversation, Elements(COLUMNS));
    Tables(if t.session.Some? then InsertedRows(UpdatedRows(rows, t.session.value), t.session.value) else rows,
           t.columns + Elements(COLUMNS), t.indexes + INDEXED, None)
  }

  predicate IsSet(f: Fields, c: Column) {
    c in f && f[c] != NULL
  }

  /** The rows that the downgrade copies back. */
  predicate HasSession(f: Fields) {
    IsSet(f, PoolId) || IsSet(f, ProjectId) || IsSet(f, Cwd)
  }

  function OldSession(c: Conversation): Session {
    Session(c.agentName, c.title, c.startTime, c.fields)
  }

  function SessionsOf(rows: Conversations): Sessions {
    map id | id in rows && HasSession(rows[id].fields) :: OldSession(rows[id])
  }

  function Downgraded(t: Tables): Tables {
    Tables(ReducedRows(t.conversation, Elements(COLUMNS)), t.columns - Elements(COLUMNS), t.indexes - INDEXED,
           Some(SessionsOf(t.conversation)))
  }

  class Database {
    var conversation: Conversations
    var columns: set<Column>
    var indexes: set<Column>
    var session: Option<Sessions>

    function State(): Tables
      reads this
    {
      Tables(conversation, columns, indexes, session)
    }

    /** Step 1 of the upgrade: add the columns that are not there yet. */
    method AddColumns(newColumns: seq<Column>)
      requires RowsHave(conversation, columns)
      modifies this`conversation, this`columns
      ensures columns == old(columns) + Elements(newColumns)
      ensures conversation == ExtendedRows(old(conversation), Elements(newColumns))
    {
      hide Elements, ExtendedRows, WithColumn, RowsHave;
      ghost var rows, before := conversation, columns;
      NoElements(newColumns);
      ExtendByNone(rows);
      var i := 0;
      while i < |newColumns|
        invariant 0 <= i <= |newColumns|
        invariant columns == before + Elements(newColumns[..i])
        invariant RowsHave(conversation, columns)
        invariant conversation == ExtendedRows(rows, Elements(newColumns[..i]))
      {
        var c := newColumns[i];
        OneMoreElement(newColumns, i);
        RowsAgree(rows, before, c);
        ExtendedHave(rows, before, Elements(newColumns[..i + 1]));
        if c in columns {
          ExtendByPresent(rows, Elements(newColumns[..i]), c);
        } else {
          ExtendByAbsent(rows, Elements(newColumns[..i]), c);
          columns := columns + {c};
          conversation := WithColumn(conversation, c);
        }
        i := i + 1;
      }
      assert newColumns[..i] == newColumns;
    }

    /** `upgrade`: add the missing columns and indexes; if there is a session table, update the
        matching rows, insert the others and drop the table. */
    method Upgrade()
      requires Valid(State())
      modifies this
      ensures State() == Upgraded(old(State()))
    {
      AddColumns(COLUMNS);
      hide ExtendedRows, UpdatedRows, InsertedRows, Elements;
      indexes := indexes + INDEXED;
      if session.Some? {
        var s := session.value;
        conversation := UpdatedRows(conversation, s);
        conversation := InsertedRows(conversation, s);
        session := None;
      }
    }

    /** The last steps of the downgrade: drop the columns one by one, the last one first. It
        fails at a column that is missing. */
    method DropColumns(dropped: seq<Column>) returns (ok: bool)
      requires RowsHave(conversation, columns)
      requires NoDuplicates(dropped)
      modifies this`conversation, this`columns
      ensures ok <==> Elements(dropped) <= old(columns)
      ensures ok ==> columns == old(columns) - Elements(dropped)
      ensures ok ==> conversation == ReducedRows(old(conversation), Elements(dropped))
    {
      assert Elements(dropped[|dropped|..]) == {};
      ReduceByNone(conversation);
      var i := |dropped|;
      while i > 0
        invariant 0 <= i <= |dropped|
        invariant Elements(dropped[i..]) <= old(columns) && columns == old(columns) - Elements(dropped[i..])
        invariant RowsHave(conversation, columns)
        invariant conversation == ReducedRows(old(conversation), Elements(dropped[i..]))
      {
        i := i - 1;
        var c := dropped[i];
        assert Elements(dropped[i..]) == Elements(dropped[i + 1..]) + {c} by {
          assert dropped[i..] == [c] + dropped[i + 1..];
        }
        assert c in Elements(dropped) && c !in Elements(dropped[i + 1..]);
        hide Elements, ReducedRows, WithoutColumn, RowsHave;
        ReduceByOne(old(conversation), Elements(dropped[i + 1..]), c);
        ReducedHave(old(conversation), old(columns), Elements(dropped[i..]));
        if c !in columns {
          return false;
        }
        columns := columns - {c};
        conversation := WithoutColumn(conversation, c);
      }
      assert dropped[i..] == dropped;
      ok := true;
    }

    /** `downgrade`. `CREATE TABLE` fails if the table exists, `DROP INDEX` and `DROP COLUMN` if
        there is nothing to drop. */
    method Downgrade() returns (ok: bool)
      requires Valid(State())
      modifies this
      ensures ok <==> old(session.None? && INDEXED <= indexes && Elements(COLUMNS) <= columns)
      ensures ok ==> State() == Downgraded(old(State()))
      ensures ok ==> session.Some? && forall id | id in old(conversation) :: var f := old(conversation)[id].fields;
                id in session.value <==>
                (PoolId in f && f[PoolId] != NULL) || (ProjectId in f && f[ProjectId] != NULL)
                || (Cwd in f && f[Cwd] != NULL)
      ensures old(session.Some?) ==> State() == old(State())
    {
      if session.Some? {
        return false;
      }
      session := Some(SessionsOf(conversation));
      if !(INDEXED <= indexes) {
        return false;
      }
      indexes := indexes - INDEXED;
      ColumnsAreDistinct();
      ok := DropColumns(COLUMNS);
    }
  }

  lemma NoElements(cs: seq<Column>)
    ensures Elements(cs[..0]) == {}
  {
  }

  lemma OneMoreElement(cs: seq<Column>, i: nat)
    requires i < |cs|
    ensures Elements(cs[..i + 1]) == Elements(cs[..i]) + {cs[i]}
  {
    assert cs[..i + 1] == cs[..i] + [cs[i]];
  }

  lemma RowsAgree(rows: Conversations, columns: set<Column>, c: Column)
    requires RowsHave(rows, columns)
    ensures forall id | id in rows :: c in rows[id].fields <==> c in columns
  {
  }

  lemma ColumnsAreDistinct()
    ensures NoDuplicates(COLUMNS)
  {
  }

  lemma ExtendByNone(rows: Conversations)
    ensures ExtendedRows(rows, {}) == rows
  {
    forall id | id in rows ensures Extended(rows[id].fields, {}) == rows[id].fields {
    }
    hide Extended;
  }

  lemma ExtendByPresent(rows: Conversations, cs: set<Column>, c: Column)
    requires forall id | id in rows :: c in rows[id].fields || c in cs
    ensures ExtendedRows(rows, cs + {c}) == ExtendedRows(rows, cs)
  {
    hide Extended;
    forall id | id in rows
      ensures Extended(rows[id].fields, cs + {c}) == Extended(rows[id].fields, cs)
    {
      FieldsByOne(rows[id].fields, cs, c);
    }
  }

  lemma ExtendByAbsent(rows: Conversations, cs: set<Column>, c: Column)
    requires forall id | id in rows :: c !in rows[id].fields
    requires c !in cs
    ensures ExtendedRows(rows, cs + {c}) == WithColumn(ExtendedRows(rows, cs), c)
  {
    hide Extended;
    forall id | id in rows
      ensures Extended(rows[id].fields, cs + {c}) == Extended(rows[id].fields, cs)[c := ServerDefault(c)]
    {
      FieldsByOne(rows[id].fields, cs, c);
    }
  }

  lemma FieldsByOne(f: Fields, cs: set<Column>, c: Column)
    ensures Extended(f, cs + {c}) ==
              if c in f || c in cs then Extended(f, cs) else Extended(f, cs)[c := ServerDefault(c)]
  {
  }

  lemma ExtendedHave(rows: Conversations, columns: set<Column>, cs: set<Column>)
    requires RowsHave(rows, columns)
    ensures RowsHave(ExtendedRows(rows, cs), columns + cs)
  {
  }

  lemma ReduceByNone(rows: Conversations)
    ensures ReducedRows(rows, {}) == rows
  {
    forall id | id in rows ensures rows[id].fields - {} == rows[id].fields {
    }
  }

  lemma ReduceByOne(rows: Conversations, cs: set<Column>, c: Column)
    ensures ReducedRows(rows, cs + {c}) == WithoutColumn(ReducedRows(rows, cs), c)
  {
    var after, expected := ReducedRows(rows, cs + {c}), WithoutColumn(ReducedRows(rows, cs), c);
    forall id | id in rows
      ensures after[id] == expected[id]
    {
      var f := rows[id].fields;
      assert f - (cs + {c}) == f - cs - {c};
    }
    assert after.Keys == rows.Keys && expected.Keys == rows.Keys;
    hide *;
  }

  lemma ReducedHave(rows: Conversations, columns: set<Column>, cs: set<Column>)
    requires RowsHave(rows, columns)
    ensures RowsHave(ReducedRows(rows, cs), columns - cs)
  {
  }
}
