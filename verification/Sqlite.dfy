/**
 The parts of SQLiteC++ that logging relies on (Statement.cpp, Transaction.cpp). What the database
 answers to BEGIN, to a step of a statement and to COMMIT is given from outside; a failing call
 is what the library reports as an exception.
 */
module Sqlite {
  import opened Sequences

  datatype Value = Text(text: string) | Number(number: real) | Null

  type Tuple = seq<Value>

  /** How the three calls of one attempt at a transaction go. */
  datatype Fate = Fate(beginFails: bool, stepFails: bool, commitFails: bool)

  /** A table of tuples, and those of the transaction that is open, if one is. */
  class Database {
    var stored: seq<Tuple>
    var pending: seq<Tuple>
    var open: bool

    constructor ()
      ensures stored == [] && pending == [] && !open
    {
      stored, pending, open := [], [], false;
    }

    ghost predicate Idle()
      reads this
    {
      !open && pending == []
    }
  }

  type Width = n: int | n > 0 witness 1

  /** `values` cut into tuples of `width`. */
  function Split(values: seq<Value>, width: Width): seq<Tuple> {
    if |values| < width then [] else Split(values[..|values| - width], width) + [values[|values| - width..]]
  }

  /** The number of question marks in the text of a statement. */
  function Marks(sql: string): nat {
    if sql == "" then 0 else Marks(sql[..|sql| - 1]) + if sql[|sql| - 1] == '?' then 1 else 0
  }

  lemma {:induction false} MarksAppend(a: string, b: string)
    ensures Marks(a + b) == Marks(a) + Marks(b)
  {
    if b == "" {
      assert a + b == a;
    } else {
      var front := b[..|b| - 1];
      assert (a + b)[..|a + b| - 1] == a + front;
      MarksAppend(a, front);
    }
  }

  /** The values of `n` parameters. One that is not bound is NULL. */
  function ParameterValues(bindings: map<int, Value>, n: nat): seq<Value> {
    seq(n, k => if k + 1 in bindings then bindings[k + 1] else Null)
  }

  /** The first parameters have been bound to `values`, each once and in order. */
  ghost predicate InOrder(bindings: map<int, Value>, order: seq<int>, values: seq<Value>) {
    && order == seq(|values|, k => k + 1)
    && forall k :: 1 <= k <= |values| ==> k in bindings && bindings[k] == values[k - 1]
  }

  lemma OneMoreInOrder(bindings: map<int, Value>, order: seq<int>, values: seq<Value>, value: Value)
    requires InOrder(bindings, order, values)
    ensures InOrder(bindings[|values| + 1 := value], order + [|values| + 1], values + [value])
  {
    assert seq(|values| + 1, k => k + 1) == seq(|values|, k => k + 1) + [|values| + 1];
  }

  /** An INSERT with a tuple of `width` parameters per row. */
  class Statement {
    const database: Database
    const width: Width
    const parameters: nat
    var bindings: map<int, Value>
    ghost var order: seq<int>  // the parameters in the order they were bound in
    var mbOk: bool
    var mbDone: bool

    constructor (database: Database, sql: string, width: Width)
      ensures this.database == database && this.width == width && parameters == Marks(sql)
      ensures bindings == map[] && order == [] && !mbOk && !mbDone
    {
      this.database, this.width, parameters := database, width, Marks(sql);
      bindings, order, mbOk, mbDone := map[], [], false, false;
    }

    /** The values of all parameters. */
    ghost function Values(): seq<Value>
      reads `bindings
    {
      ParameterValues(bindings, parameters)
    }

    ghost predicate BoundInOrder(values: seq<Value>)
      reads `bindings, `order
    {
      |values| <= parameters && InOrder(bindings, order, values)
    }

    /** Parameters are numbered from 1; a number out of range throws. */
    method Bind(index: int, value: Value) returns (ok: bool)
      modifies `bindings, `order
      ensures ok <==> 1 <= index <= parameters
      ensures bindings == if ok then old(bindings)[index := value] else old(bindings)
      ensures order == if ok then old(order) + [index] else old(order)
      ensures forall k :: 0 <= k < parameters ==> Values()[k] == if k + 1 == index then value else old(Values())[k]
    {
      if index < 1 || parameters < index {
        return false;
      }
      bindings := bindings[index := value];
      order := order + [index];
      return true;
    }

    /** Runs the statement once. A statement that is done throws until it is reset; one whose step
        failed can be run again. */
    method Exec(stepFails: bool) returns (changes: Result<nat>)
      modifies `mbOk, `mbDone, database`pending
      ensures !mbOk && mbDone == (old(mbDone) || !stepFails)
      ensures old(mbDone) || stepFails ==> changes.Failure? && database.pending == old(database.pending)
      ensures !old(mbDone) && !stepFails ==>
                && changes == Success(|Split(Values(), width)|)
                && database.pending == old(database.pending) + Split(Values(), width)
    {
      if mbDone {
        mbOk := false;
        return Failure("Statement need to be reseted.");
      }
      if stepFails {
        mbOk, mbDone := false, false;
        return Failure("step");
      }
      mbOk, mbDone := false, true;
      var values := ParameterValues(bindings, parameters);
      database.pending := database.pending + Split(values, width);
      return Success(|Split(values, width)|);
    }
  }

  /** A transaction that rolls back when it goes out of scope without having been committed. */
  class Transaction {
    const database: Database
    var mbCommited: bool

    constructor (database: Database)
      ensures this.database == database && !mbCommited
    {
      this.database, mbCommited := database, false;
    }

    /** BEGIN, or the exception thrown in its place. */
    static method Begin(database: Database, fails: bool) returns (t: Transaction?)
      modifies database`open
      ensures t == null <==> fails || old(database.open)
      ensures t == null ==> database.open == old(database.open)
      ensures t != null ==> fresh(t) && t.database == database && !t.mbCommited && database.open
    {
      if fails || database.open {
        return null;
      }
      database.open := true;
      t := new Transaction(database);
    }

    method Commit(fails: bool) returns (ok: bool)
      modifies this`mbCommited, database
      ensures ok <==> !old(mbCommited) && !fails
      ensures ok ==> mbCommited && !database.open && database.pending == []
                     && database.stored == old(database.stored + database.pending)
      ensures !ok ==> mbCommited == old(mbCommited) && database.stored == old(database.stored)
                      && database.pending == old(database.pending) && database.open == old(database.open)
    {
      if mbCommited || fails {
        return false;
      }
      database.stored := database.stored + database.pending;
      database.pending, database.open := [], false;
      mbCommited := true;
      return true;
    }

    /** The destructor. */
    method Destroy()
      modifies database
      ensures database.stored == old(database.stored)
      ensures mbCommited ==> database.pending == old(database.pending) && database.open == old(database.open)
      ensures !mbCommited ==> database.Idle()
    {
      if !mbCommited {
        database.pending, database.open := [], false;
      }
    }
  }
}
