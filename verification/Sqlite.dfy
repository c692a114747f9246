/** The part of SQLite, as seen through Python's `sqlite3`, that the database layer relies on:
    the transaction flag, the foreign-key and query-only pragmas, and what a commit publishes.
    Committed data is the sequence of writes published so far. */
module Sqlite {
  type Write = nat

  /** `born` is the drain generation in force when the connection was opened. */
  datatype Conn = Conn(born: nat, inTx: bool, foreignKeys: bool, queryOnly: bool, pending: seq<Write>)

  datatype Stmt =
    | Begin
    | Insert(w: Write)
    | Commit
    | Rollback
    | ForeignKeys(on: bool)

  datatype Session = Session(conn: Conn, committed: seq<Write>)

  /** A new connection has no transaction and SQLite's default of unenforced foreign keys. */
  function Fresh(generation: nat): Conn {
    Conn(generation, false, false, false, [])
  }

  function RolledBack(c: Conn): Conn {
    c.(inTx := false, pending := [])
  }

  /** One statement. `PRAGMA foreign_keys` is ignored inside a transaction, a write outside a
      transaction opens one implicitly, and a query-only connection refuses writes. */
  function Exec(x: Session, st: Stmt): Session {
    var c := x.conn;
    match st
    case Begin => if c.inTx then x else x.(conn := c.(inTx := true, pending := []))
    case Insert(w) =>
      if c.queryOnly then x
      else x.(conn := c.(inTx := true, pending := (if c.inTx then c.pending else []) + [w]))
    case Commit =>
      if c.inTx then Session(RolledBack(c), x.committed + c.pending) else x
    case Rollback => x.(conn := RolledBack(c))
    case ForeignKeys(on) => if c.inTx then x else x.(conn := c.(foreignKeys := on))
  }

  function ExecAll(x: Session, stmts: seq<Stmt>): Session
    decreases |stmts|
  {
    if stmts == [] then x else ExecAll(Exec(x, stmts[0]), stmts[1..])
  }

  lemma {:induction false} ExecAllConcat(x: Session, a: seq<Stmt>, b: seq<Stmt>)
    ensures ExecAll(x, a + b) == ExecAll(ExecAll(x, a), b)
    decreases |a|
  {
    if a == [] {
      assert a + b == b;
    } else {
      assert (a + b)[0] == a[0] && (a + b)[1..] == a[1..] + b;
      ExecAllConcat(Exec(x, a[0]), a[1..], b);
    }
  }

  /** Statements that leave the open transaction open. */
  predicate KeepsTransaction(stmts: seq<Stmt>) {
    forall i | 0 <= i < |stmts| :: !stmts[i].Commit? && !stmts[i].Rollback?
  }

  function WritesOf(stmts: seq<Stmt>): seq<Write> {
    if stmts == [] then []
    else (if stmts[0].Insert? then [stmts[0].w] else []) + WritesOf(stmts[1..])
  }

  lemma StmtCollects(x: Session, st: Stmt)
    requires x.conn.inTx && !x.conn.queryOnly && !st.Commit? && !st.Rollback?
    ensures Exec(x, st) == x.(conn := x.conn.(pending := x.conn.pending + (if st.Insert? then [st.w] else [])))
  {
    assert x.conn.pending + [] == x.conn.pending;
  }

  /** Inside a transaction, statements that do not end it publish nothing, collect exactly the
      writes issued and cannot change foreign-key enforcement. */
  lemma {:induction false} OpenTransactionCollects(x: Session, stmts: seq<Stmt>)
    requires x.conn.inTx && !x.conn.queryOnly
    requires KeepsTransaction(stmts)
    ensures ExecAll(x, stmts) == x.(conn := x.conn.(pending := x.conn.pending + WritesOf(stmts)))
    decreases |stmts|
  {
    if stmts == [] {
      assert x.conn.pending + [] == x.conn.pending;
    } else {
      StmtCollects(x, stmts[0]);
      var here := if stmts[0].Insert? then [stmts[0].w] else [];
      var y := x.(conn := x.conn.(pending := x.conn.pending + here));
      OpenTransactionCollects(y, stmts[1..]);
      assert (x.conn.pending + here) + WritesOf(stmts[1..]) == x.conn.pending + (here + WritesOf(stmts[1..]));
    }
  }

  // ----- bodies that end their own transaction -----------------------------------------------

  /** Outside a transaction nothing is pending. */
  predicate Tidy(c: Conn) { !c.inTx ==> c.pending == [] }

  /** Some commit follows a write with no rollback in between; `dirty` says whether a write is
      already pending. */
  predicate Escapes(stmts: seq<Stmt>, dirty: bool) {
    stmts != [] &&
    match stmts[0]
    case Insert(_) => Escapes(stmts[1..], true)
    case Commit => dirty || Escapes(stmts[1..], false)
    case Rollback => Escapes(stmts[1..], false)
    case _ => Escapes(stmts[1..], dirty)
  }

  lemma StmtShows(x: Session, st: Stmt)
    requires Tidy(x.conn) && !x.conn.queryOnly
    ensures var y := Exec(x, st);
      && Tidy(y.conn) && !y.conn.queryOnly && x.committed <= y.committed
      && (y.committed == x.committed <==> !(st.Commit? && x.conn.pending != []))
      && (y.conn.pending != [] <==> st.Insert? || (x.conn.pending != [] && !st.Commit? && !st.Rollback?))
  {
  }

  /** Statements only ever add to the committed data, and add something exactly when a pending
      write escapes by a commit. */
  lemma {:induction false} BodyShowsIff(x: Session, stmts: seq<Stmt>)
    requires Tidy(x.conn) && !x.conn.queryOnly
    ensures var y := ExecAll(x, stmts);
      && Tidy(y.conn) && !y.conn.queryOnly && x.committed <= y.committed
      && (y.committed == x.committed <==> !Escapes(stmts, x.conn.pending != []))
    decreases |stmts|
  {
    if stmts != [] {
      StmtShows(x, stmts[0]);
      BodyShowsIff(Exec(x, stmts[0]), stmts[1..]);
    }
  }
}
