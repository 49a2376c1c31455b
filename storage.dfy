/** The PostgreSQL server as the lookups see it: a connection that may fail
    to open, a cursor whose query may raise, and the open/closed state of
    both. */
module Storage {
  import opened Wrappers
  import opened Catalog

  /** What one request would meet at the server: whether `psycopg2.connect`
      succeeds, whether executing a statement raises `psycopg2.Error`, and
      the rows of `courses` in store order. */
  datatype Store = Store(reachable: bool, failing: bool, rows: seq<Course>)

  /** The configured database server (`get_db_connection`'s environment). */
  class Database {
    const store: Store
    /** How many times a connection has been requested. */
    var attempts: nat
    /** Every connection this server has handed out, in order. */
    ghost var handed: seq<Connection>

    constructor (store: Store)
      ensures this.store == store && attempts == 0 && handed == []
    {
      this.store := store;
      attempts := 0;
      handed := [];
    }

    /** `get_db_connection()`: a fresh open connection, or null when the
        server cannot be reached. */
    method Connect() returns (conn: Connection?)
      modifies this
      ensures attempts == old(attempts) + 1
      ensures (conn != null) == store.reachable
      ensures conn != null ==> fresh(conn) && conn.open && conn.db == this && conn.cursors == {}
      ensures handed == if conn != null then old(handed) + [conn] else old(handed)
    {
      attempts := attempts + 1;
      if store.reachable {
        conn := new Connection(this);
      } else {
        conn := null;
      }
    }
  }

  class Connection {
    const db: Database
    var open: bool
    /** Every cursor created on this connection. */
    ghost var cursors: set<Cursor>

    /** A new connection is recorded by the server that hands it out. */
    constructor (db: Database)
      modifies db
      ensures this.db == db && open && cursors == {}
      ensures db.handed == old(db.handed) + [this] && db.attempts == old(db.attempts)
    {
      this.db := db;
      open := true;
      cursors := {};
      new;
      db.handed := db.handed + [this];
    }

    /** `conn.cursor(...)`: a fresh open cursor with no result set yet. */
    method NewCursor() returns (c: Cursor)
      requires open
      modifies this
      ensures open
      ensures fresh(c) && c.open && c.conn == this && c.result == []
      ensures cursors == old(cursors) + {c}
    {
      c := new Cursor(this);
    }

    /** `conn.close()`. */
    method Close()
      modifies this
      ensures !open && cursors == old(cursors)
    {
      open := false;
    }
  }

  class Cursor {
    const conn: Connection
    var open: bool
    /** The result set of the last statement executed. */
    var result: seq<Course>

    /** A new cursor is recorded by the connection it runs on. */
    constructor (conn: Connection)
      modifies conn
      ensures this.conn == conn && open && result == []
      ensures conn.cursors == old(conn.cursors) + {this} && conn.open == old(conn.open)
    {
      this.conn := conn;
      open := true;
      result := [];
      new;
      conn.cursors := conn.cursors + {this};
    }

    /** `cursor.execute(q)`: false when the statement raises, otherwise the
        result set becomes the rows the query selects. */
    method Execute(q: Query) returns (ok: bool)
      requires open && conn.open
      modifies this
      ensures open
      ensures ok == !conn.db.store.failing
      ensures result == if ok then Run(q, conn.db.store.rows) else old(result)
    {
      ok := !conn.db.store.failing;
      if ok {
        result := Run(q, conn.db.store.rows);
      }
    }

    /** `cursor.fetchone()`. */
    method FetchOne() returns (row: Option<Course>)
      requires open
      ensures row == First(result)
    {
      row := First(result);
    }

    /** `cursor.fetchall()`. */
    method FetchAll() returns (rows: seq<Course>)
      requires open
      ensures rows == result
    {
      rows := result;
    }

    /** `cursor.close()`. */
    method Close()
      modifies this
      ensures !open && result == old(result)
    {
      open := false;
    }
  }
}
