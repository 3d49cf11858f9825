/** Buffered logging of trial results (lumberjack.cpp). */
module Lumberjacks {
  import opened Sequences
  import opened Sqlite

  const MAXIMUM_BUFFER_SIZE := 50

  // ---- The number of results a trial has

  function Join(fields: seq<string>): string {
    if fields == [] then "" else Join(fields[..|fields| - 1]) + fields[|fields| - 1] + ", "
  }

  /** The names of the columns, with a separator after each but the last (nibble.cpp, find_attributes). */
  function Attributes(fields: seq<string>): string
    requires fields != []
  {
    Join(fields)[..|Join(fields)| - 2]
  }

  function Commas(s: string): nat {
    if s == "" then 0 else Commas(s[..|s| - 1]) + if s[|s| - 1] == ',' then 1 else 0
  }

  /** Unsigned 32-bit arithmetic: the number of commas less one, wrapping below zero. */
  function ExpectedResultSize(trialFields: string): nat {
    if Commas(trialFields) == 0 then 0xFFFF_FFFF else Commas(trialFields) - 1
  }

  lemma {:induction false} CommasAppend(a: string, b: string)
    ensures Commas(a + b) == Commas(a) + Commas(b)
  {
    if b == "" {
      assert a + b == a;
    } else {
      var front := b[..|b| - 1];
      assert (a + b)[..|a + b| - 1] == a + front;
      CommasAppend(a, front);
    }
  }

  lemma {:induction false} JoinCommas(fields: seq<string>)
    requires forall k :: 0 <= k < |fields| ==> Commas(fields[k]) == 0
    ensures Commas(Join(fields)) == |fields|
    ensures fields != [] ==> |Join(fields)| >= 2
  {
    if fields != [] {
      var last := |fields| - 1;
      JoinCommas(fields[..last]);
      CommasAppend(Join(fields[..last]) + fields[last], ", ");
      CommasAppend(Join(fields[..last]), fields[last]);
      assert Commas(", ") == 1 by {
        assert ", "[..1] == "," && ","[..0] == "";
      }
    }
  }

  /** A table with an identifier, a timestamp and n results expects n results; with a single column
      the count wraps around. */
  lemma ExpectedSizeIsColumnsLessTwo(fields: seq<string>)
    requires fields != [] && forall k :: 0 <= k < |fields| ==> Commas(fields[k]) == 0
    ensures ExpectedResultSize(Attributes(fields)) == if |fields| == 1 then 0xFFFF_FFFF else |fields| - 2
  {
    JoinCommas(fields);
    var all := Join(fields);
    var names := Attributes(fields);
    assert all == names + ", " by {
      var front := Join(fields[..|fields| - 1]) + fields[|fields| - 1];
      assert all == front + ", ";
      assert names == front;
    }
    CommasAppend(names, ", ");
    assert Commas(", ") == 1 by {
      assert ", "[..1] == "," && ","[..0] == "";
    }
  }

  // ---- What one trial becomes in the table

  function Numbers(result: seq<real>): seq<Value> {
    seq(|result|, k requires 0 <= k < |result| => Number(result[k]))
  }

  function TrialTuple(identifier: string, timestamp: string): seq<real> -> Tuple {
    (result: seq<real>) => [Text(identifier), Text(timestamp)] + Numbers(result)
  }

  /** The values bound for a list of trials, one after the other. */
  function BoundValues(identifier: string, timestamp: string, trials: seq<seq<real>>): seq<Value> {
    if trials == [] then []
    else
      var last := |trials| - 1;
      BoundValues(identifier, timestamp, trials[..last]) + TrialTuple(identifier, timestamp)(trials[last])
  }

  ghost predicate AllOfSize(trials: seq<seq<real>>, size: nat) {
    forall k :: 0 <= k < |trials| ==> |trials[k]| == size
  }

  /** Cutting the values into tuples gives back one tuple per trial. */
  lemma {:induction false} SplitBoundValues(identifier: string, timestamp: string, trials: seq<seq<real>>, size: nat)
    requires AllOfSize(trials, size)
    ensures |BoundValues(identifier, timestamp, trials)| == |trials| * (size + 2)
    ensures Split(BoundValues(identifier, timestamp, trials), size + 2)
              == Map(TrialTuple(identifier, timestamp), trials)
  {
    if trials != [] {
      var front, last := trials[..|trials| - 1], trials[|trials| - 1];
      SplitBoundValues(identifier, timestamp, front, size);
      var before, tuple := BoundValues(identifier, timestamp, front), TrialTuple(identifier, timestamp)(last);
      assert |trials| * (size + 2) == |front| * (size + 2) + (size + 2);
      SplitLast(before, tuple, size + 2);
      assert Map(TrialTuple(identifier, timestamp), trials) == Map(TrialTuple(identifier, timestamp), front) + [tuple];
    }
  }

  lemma SplitLast(before: seq<Value>, tuple: Tuple, width: nat)
    requires width > 0 && |tuple| == width
    ensures Split(before + tuple, width) == Split(before, width) + [tuple]
  {
    assert (before + tuple)[..|before|] == before;
    assert (before + tuple)[|before|..] == tuple;
  }

  // ---- Attempts at a flush

  /** What a flush leaves after some attempts: the tuples stored, whether the buffer still holds
      its trials, whether the statement is done, and whether the flush has returned. */
  datatype Progress = Progress(stored: seq<Tuple>, buffered: bool, done: bool, returned: bool)

  /** One turn of the retry loop, with `rows` bound to the statement. */
  function AttemptOnce(p: Progress, rows: seq<Tuple>, fate: Fate): Progress {
    if p.returned || fate.beginFails || p.done || fate.stepFails then p
    else if fate.commitFails then Progress(p.stored, false, true, false)
    else Progress(p.stored + rows, false, true, true)
  }

  function Attempts(p: Progress, rows: seq<Tuple>, fates: seq<Fate>): Progress {
    if fates == [] then p else AttemptOnce(Attempts(p, rows, fates[..|fates| - 1]), rows, fates[|fates| - 1])
  }

  predicate Harmless(fate: Fate) {
    fate.beginFails || fate.stepFails
  }

  /** What the attempts at a flush of `rows` lead to. */
  function Flushed(stored: seq<Tuple>, rows: seq<Tuple>, fates: seq<Fate>): Progress {
    Attempts(Progress(stored, true, false, false), rows, fates)
  }

  /** However many attempts fail at BEGIN or at the step, nothing is lost and nothing is stored. */
  lemma {:induction false} HarmlessAttempts(stored: seq<Tuple>, rows: seq<Tuple>, fates: seq<Fate>)
    requires forall k :: 0 <= k < |fates| ==> Harmless(fates[k])
    ensures Flushed(stored, rows, fates) == Progress(stored, true, false, false)
  {
    if fates != [] {
      HarmlessAttempts(stored, rows, fates[..|fates| - 1]);
    }
  }

  /** After a failed COMMIT, or after the return, no attempt changes anything any more. */
  lemma {:induction false} DoneStays(p: Progress, rows: seq<Tuple>, fates: seq<Fate>)
    requires p.done
    ensures Attempts(p, rows, fates) == p
  {
    if fates != [] {
      DoneStays(p, rows, fates[..|fates| - 1]);
    }
  }

  lemma {:induction false} AttemptsSplit(p: Progress, rows: seq<Tuple>, a: seq<Fate>, b: seq<Fate>)
    ensures Attempts(p, rows, a + b) == Attempts(Attempts(p, rows, a), rows, b)
  {
    if b == [] {
      assert a + b == a;
    } else {
      var front := b[..|b| - 1];
      assert (a + b)[..|a + b| - 1] == a + front;
      AttemptsSplit(p, rows, a, front);
    }
  }

  /** The first attempt that gets past BEGIN and step decides: if its COMMIT succeeds the trials are
      stored once and the flush returns; if it fails, the trials are in neither buffer nor table
      and no later attempt returns. */
  lemma FlushIsDecidedOnce(stored: seq<Tuple>, rows: seq<Tuple>, fates: seq<Fate>, k: nat)
    requires k < |fates| && !fates[k].beginFails && !fates[k].stepFails
    requires forall l :: 0 <= l < k ==> fates[l].beginFails || fates[l].stepFails
    ensures Flushed(stored, rows, fates)
         == if fates[k].commitFails then Progress(stored, false, true, false)
             else Progress(stored + rows, false, true, true)
  {
    var start := Progress(stored, true, false, false);
    HarmlessAttempts(stored, rows, fates[..k]);
    assert fates[..k + 1][..k] == fates[..k];
    DoneStays(Attempts(start, rows, fates[..k + 1]), rows, fates[k + 1..]);
    AttemptsSplit(start, rows, fates[..k + 1], fates[k + 1..]);
    assert fates == fates[..k + 1] + fates[k + 1..];
  }

  /** An attempt succeeds before a COMMIT has failed. */
  ghost predicate Returns(fates: seq<Fate>) {
    exists k :: && 0 <= k < |fates| && fates[k] == Fate(false, false, false)
                && forall l :: 0 <= l < k ==> fates[l] != Fate(false, false, true)
  }

  /** The trials of the buffer end up in the table exactly when the flush returns, and that is when
      an attempt succeeds before a COMMIT has failed. */
  lemma FlushReturnsIff(stored: seq<Tuple>, rows: seq<Tuple>, fates: seq<Fate>)
    ensures var p := Flushed(stored, rows, fates);
            && (p.returned ==> p.stored == stored + rows)
            && (!p.returned ==> p.stored == stored)
            && (p.returned <==> Returns(fates))
  {
    if k :| && 0 <= k < |fates| && fates[k] == Fate(false, false, false)
            && forall l :: 0 <= l < k ==> fates[l] != Fate(false, false, true) {
      FirstDecision(fates, k);
      var d :| 0 <= d <= k && !Harmless(fates[d]) && forall l :: 0 <= l < d ==> Harmless(fates[l]);
      FlushIsDecidedOnce(stored, rows, fates, d);
    } else if e :| 0 <= e < |fates| && !Harmless(fates[e]) {
      FirstDecision(fates, e);
      var d :| 0 <= d <= e && !Harmless(fates[d]) && forall l :: 0 <= l < d ==> Harmless(fates[l]);
      FlushIsDecidedOnce(stored, rows, fates, d);
    } else {
      HarmlessAttempts(stored, rows, fates);
    }
  }

  lemma FlushedByNone(stored: seq<Tuple>, rows: seq<Tuple>, fates: seq<Fate>)
    ensures Flushed(stored, rows, fates[..0]) == Progress(stored, true, false, false)
  {
  }

  lemma FlushedByOneMore(stored: seq<Tuple>, rows: seq<Tuple>, fates: seq<Fate>, k: nat)
    requires k < |fates|
    ensures Flushed(stored, rows, fates[..k + 1]) == AttemptOnce(Flushed(stored, rows, fates[..k]), rows, fates[k])
  {
    assert fates[..k + 1][..k] == fates[..k];
  }

  /** Once a flush has returned, no further attempt is made. */
  lemma FlushedForGood(stored: seq<Tuple>, rows: seq<Tuple>, fates: seq<Fate>, k: nat)
    requires k <= |fates| && Flushed(stored, rows, fates[..k]).done
    ensures Flushed(stored, rows, fates) == Flushed(stored, rows, fates[..k])
  {
    AttemptsSplit(Progress(stored, true, false, false), rows, fates[..k], fates[k..]);
    DoneStays(Flushed(stored, rows, fates[..k]), rows, fates[k..]);
    assert fates == fates[..k] + fates[k..];
  }

  /** A flush has returned with everything stored, has not changed anything yet, or has lost its
      trials to a COMMIT that failed. */
  lemma FlushedHow(stored: seq<Tuple>, rows: seq<Tuple>, fates: seq<Fate>)
    ensures Flushed(stored, rows, fates) in {Progress(stored + rows, false, true, true),
                                             Progress(stored, true, false, false),
                                             Progress(stored, false, true, false)}
    ensures Flushed(stored, rows, fates) == Progress(stored, false, true, false) ==>
              Fate(false, false, true) in fates
  {
    if k :| 0 <= k < |fates| && !Harmless(fates[k]) {
      FirstDecision(fates, k);
      var d :| 0 <= d <= k && !Harmless(fates[d]) && forall l :: 0 <= l < d ==> Harmless(fates[l]);
      FlushIsDecidedOnce(stored, rows, fates, d);
      assert fates[d] in fates;
    } else {
      HarmlessAttempts(stored, rows, fates);
    }
  }

  lemma {:induction false} FirstDecision(fates: seq<Fate>, k: nat)
    requires k < |fates| && !Harmless(fates[k])
    ensures exists d :: 0 <= d <= k && !Harmless(fates[d]) && forall l :: 0 <= l < d ==> Harmless(fates[l])
  {
    if l :| 0 <= l < k && !Harmless(fates[l]) {
      FirstDecision(fates, l);
    }
  }

  // ---- The logger

  class Lumberjack {
    const database: Database
    const sqlHead: string
    const expectedResultSize: nat
    const identifierName: string
    const timestamp: string
    var resultBuffer: seq<seq<real>>

    constructor (database: Database, sqlHead: string, trialFields: string, identifierName: string, timestamp: string)
      requires Marks(sqlHead) == 0 && database.Idle()
      ensures this.database == database && expectedResultSize == ExpectedResultSize(trialFields)
      ensures this.identifierName == identifierName && this.timestamp == timestamp
      ensures Valid() && resultBuffer == []
    {
      this.database, this.sqlHead, expectedResultSize := database, sqlHead, ExpectedResultSize(trialFields);
      this.identifierName, this.timestamp, resultBuffer := identifierName, timestamp, [];
    }

    /** Less than a full buffer of trials of the expected size, and no open transaction. */
    ghost predicate Valid()
      reads this, database
    {
      && database.Idle()
      && |resultBuffer| < MAXIMUM_BUFFER_SIZE
      && AllOfSize(resultBuffer, expectedResultSize)
      && Marks(sqlHead) == 0
    }

    ghost function Tuples(trials: seq<seq<real>>): seq<Tuple> {
      Map(TrialTuple(identifierName, timestamp), trials)
    }

    /** Everything logged so far, in order: what is stored and what is still in the buffer. */
    ghost function Logged(): seq<Tuple>
      reads this, database
    {
      database.stored + Tuples(resultBuffer)
    }

    /** Throws for a trial of the wrong size. Otherwise the trial is buffered, and when that fills
        the buffer, the attempts at a flush decide: `None` means that none of them has returned. */
    method LogTrial(result: seq<real>, fates: seq<Fate>) returns (outcome: Result<Option<int>>)
      requires Valid()
      modifies this`resultBuffer, database
      ensures database.Idle()
      ensures outcome.Failure? <==> |result| != expectedResultSize
      ensures outcome.Failure? ==> resultBuffer == old(resultBuffer) && database.stored == old(database.stored)
      ensures outcome.Success? && |old(resultBuffer)| < 49 ==>
                outcome.value == Some(0) && resultBuffer == old(resultBuffer) + [result]
                && database.stored == old(database.stored)
      ensures outcome.Success? && |old(resultBuffer)| == 49 ==>
                var trials := old(resultBuffer) + [result];
                var p := Flushed(old(database.stored), Tuples(trials), fates);
                && outcome.value == (if p.returned then Some(0) else None)
                && database.stored == p.stored && resultBuffer == if p.buffered then trials else []
      ensures Logging(result)
           == [Text(identifierName), Text(timestamp)] + seq(|result|, k requires 0 <= k < |result| => Number(result[k]))
      ensures outcome == Success(Some(0)) ==> Valid() && Logged() == old(Logged()) + [Logging(result)]
      ensures outcome == Success(None) ==>
                || Logged() == old(Logged()) + [Logging(result)]
                || (Logged() == old(database.stored) && Fate(false, false, true) in fates)
    {
      if |result| != expectedResultSize {
        return Failure("Result is not of size");
      }
      TuplesAppend(resultBuffer, result);
      resultBuffer := resultBuffer + [result];
      if |resultBuffer| >= MAXIMUM_BUFFER_SIZE {
        FlushedHow(database.stored, Tuples(resultBuffer), fates);
        var ret := FlushBuffer(fates);
        return Success(ret);
      }
      return Success(Some(0));
    }

    /** Logs trials one after the other, until a flush does not return. Whatever BEGIN and step do, all
        trials are then stored or buffered, once and in order; and every flush returns if, of the
        attempts made, one succeeds before a COMMIT fails. */
    method LogAll(trials: seq<seq<real>>, fates: seq<seq<Fate>>) returns (completed: bool)
      requires Valid() && |fates| == |trials| && AllOfSize(trials, expectedResultSize)
      modifies this`resultBuffer, database
      ensures completed ==> Valid() && Logged() == old(Logged()) + Tuples(trials)
      ensures |Tuples(trials)| == |trials|
      ensures forall i :: 0 <= i < |trials| ==>
                Tuples(trials)[i] == [Text(identifierName), Text(timestamp)]
                    + seq(|trials[i]|, k requires 0 <= k < |trials[i]| => Number(trials[i][k]))
      ensures (forall i :: 0 <= i < |fates| ==> Returns(fates[i])) ==> completed
    {
      TuplesOfNone();
      for i := 0 to |trials|
        invariant Valid() && Logged() == old(Logged()) + Tuples(trials[..i])
      {
        FlushReturnsIff(database.stored, Tuples(resultBuffer + [trials[i]]), fates[i]);
        TuplesAppend(trials[..i], trials[i]);
        assert trials[..i + 1] == trials[..i] + [trials[i]];
        var outcome := LogTrial(trials[i], fates[i]);
        if outcome.value.None? {
          return false;
        }
      }
      assert trials[..|trials|] == trials;
      return true;
    }

    lemma TuplesOfNone()
      ensures Tuples([]) == []
    {
    }

    /** The tuple a trial becomes. */
    ghost function Logging(result: seq<real>): Tuple {
      TrialTuple(identifierName, timestamp)(result)
    }

    lemma TuplesAppend(trials: seq<seq<real>>, result: seq<real>)
      ensures Tuples(trials + [result]) == Tuples(trials) + [TrialTuple(identifierName, timestamp)(result)]
    {
    }

    /** The text after the head of the statement: a group of parameters per trial, with commas between them. */
    method Placeholders() returns (sql: string)
      requires resultBuffer != []
      ensures sql + "," == Repeated("(?, " + Repeated("?, ", expectedResultSize) + "?),", |resultBuffer|)
      ensures Marks(sql) == |resultBuffer| * (expectedResultSize + 2)
    {
      hide Marks;
      sql := "";
      ghost var group := "(?, " + Repeated("?, ", expectedResultSize) + "?),";
      for i := 0 to |resultBuffer|
        invariant sql == Repeated(group, i)
      {
        sql := sql + "(?, ";
        for a := 0 to expectedResultSize
          invariant sql == Repeated(group, i) + ("(?, " + Repeated("?, ", a))
        {
          sql := sql + "?, ";
        }
        sql := sql + "?),";
        assert sql == Repeated(group, i) + group;
      }
      MarksOfGroups(expectedResultSize, |resultBuffer|);
      assert sql == Repeated(group, |resultBuffer| - 1) + group;
      ghost var all := sql;
      sql := sql[..|sql| - 1];
      assert all == sql + ",";
      MarksAppend(sql, ",");
      MarksOfComma();
    }

    /** Binds the values of every trial. No index is out of range, and each is used once. */
    method BindAll(insert: Statement)
      requires insert.BoundInOrder([]) && insert.width == expectedResultSize + 2
      requires insert.parameters == |resultBuffer| * (expectedResultSize + 2)
      requires AllOfSize(resultBuffer, expectedResultSize)
      modifies insert`bindings, insert`order
      ensures insert.order == seq(insert.parameters, k => k + 1)
      ensures insert.Values() == BoundValues(identifierName, timestamp, resultBuffer)
    {
      for i := 0 to |resultBuffer|
        invariant |BoundValues(identifierName, timestamp, resultBuffer[..i])| == i * (expectedResultSize + 2)
        invariant insert.BoundInOrder(BoundValues(identifierName, timestamp, resultBuffer[..i]))
      {
        RoomForGroup(i, |resultBuffer|, expectedResultSize);
        BindTrial(insert, i, i * (expectedResultSize + 2), BoundValues(identifierName, timestamp, resultBuffer[..i]));
        assert resultBuffer[..i + 1][..i] == resultBuffer[..i];
        NextGroup(i, expectedResultSize);
      }
      assert resultBuffer[..|resultBuffer|] == resultBuffer;
      assert insert.Values() == BoundValues(identifierName, timestamp, resultBuffer);
    }

    /** Binds the identifier, the timestamp and the results of trial `i` to the parameters after `first`. */
    method BindTrial(insert: Statement, i: nat, first: nat, ghost before: seq<Value>)
      requires i < |resultBuffer| && |resultBuffer[i]| == expectedResultSize
      requires insert.BoundInOrder(before) && |before| == first
      requires first + expectedResultSize + 2 <= insert.parameters
      modifies insert`bindings, insert`order
      ensures insert.BoundInOrder(before + Logging(resultBuffer[i]))
    {
      hide Statement.BoundInOrder, Numbers, TrialTuple;
      BindNext(insert, first + 1, Text(identifierName), before);
      BindNext(insert, first + 2, Text(timestamp), before + [Text(identifierName)]);
      ghost var head := before + [Text(identifierName)] + [Text(timestamp)];
      ghost var results := resultBuffer[i];
      NumbersStart(head, results);
      for j := 0 to expectedResultSize
        invariant |head| == first + 2
        invariant |Numbers(results[..j])| == j
        invariant insert.BoundInOrder(head + Numbers(results[..j]))
      {
        NumbersStep(head, results, j);
        BindNext(insert, first + j + 3, Number(resultBuffer[i][j]), head + Numbers(results[..j]));
      }
      NumbersEnd(before, identifierName, timestamp, results);
    }

    /** Binds the next parameter. */
    method BindNext(insert: Statement, index: nat, value: Value, ghost before: seq<Value>)
      requires insert.BoundInOrder(before) && index == |before| + 1 && index <= insert.parameters
      modifies insert`bindings, insert`order
      ensures insert.BoundInOrder(before + [value])
    {
      var ok := insert.Bind(index, value);
      assert ok;
      OneMoreInOrder(old(insert.bindings), old(insert.order), before, value);
    }

    /** One turn of the retry loop. The buffer is cleared before the COMMIT, so a COMMIT that fails
        loses it; and the statement, done by then, throws on every later turn. */
    method TryOnce(insert: Statement, fate: Fate) returns (returned: bool)
      requires database.Idle() && insert.database == database
      requires Split(insert.Values(), insert.width) == Tuples(resultBuffer) || insert.mbDone
      modifies this`resultBuffer, database, insert`mbOk, insert`mbDone
      ensures database.Idle() && insert.Values() == old(insert.Values())
      ensures var before := Progress(old(database.stored), true, old(insert.mbDone), false);
              var after := AttemptOnce(before, old(Tuples(resultBuffer)), fate);
              && returned == after.returned && database.stored == after.stored && insert.mbDone == after.done
              && resultBuffer == if after.buffered then old(resultBuffer) else []
    {
      var t := Transaction.Begin(database, fate.beginFails);
      if t == null {
        return false;
      }
      var changes := insert.Exec(fate.stepFails);
      if changes.Failure? {
        t.Destroy();
        return false;
      }
      assert changes.value == |resultBuffer|;
      resultBuffer := [];
      var ok := t.Commit(fate.commitFails);
      t.Destroy();
      return ok;
    }

    /** An empty buffer is not flushed. Otherwise the attempts are made one after the other until
        one returns; `None` means that none of them has. */
    method FlushBuffer(fates: seq<Fate>) returns (ret: Option<int>)
      requires database.Idle() && AllOfSize(resultBuffer, expectedResultSize) && Marks(sqlHead) == 0
      modifies this`resultBuffer, database
      ensures database.Idle()
      ensures old(resultBuffer) == [] ==>
                ret == Some(0) && resultBuffer == [] && database.stored == old(database.stored)
      ensures old(resultBuffer) != [] ==>
                var p := Flushed(old(database.stored), old(Tuples(resultBuffer)), fates);
                && ret == (if p.returned then Some(0) else None)
                && database.stored == p.stored && resultBuffer == if p.buffered then old(resultBuffer) else []
    {
      hide Attempts, Flushed, Map, Split, BoundValues, TrialTuple, Marks;
      if resultBuffer == [] {
        return Some(0);
      }
      FlushedByNone(database.stored, Tuples(resultBuffer), fates);
      var groups := Placeholders();
      MarksAppend(sqlHead, groups);
      var insert := new Statement(database, sqlHead + groups, expectedResultSize + 2);
      BindAll(insert);
      SplitBoundValues(identifierName, timestamp, resultBuffer, expectedResultSize);
      ghost var stored, trials := database.stored, resultBuffer;
      for k := 0 to |fates|
        invariant database.Idle() && Split(insert.Values(), insert.width) == Tuples(trials)
        invariant var p := Flushed(stored, Tuples(trials), fates[..k]);
                  && !p.returned && p.buffered == !p.done
                  && database.stored == p.stored && insert.mbDone == p.done
                  && resultBuffer == if p.buffered then trials else []
      {
        FlushedByOneMore(stored, Tuples(trials), fates, k);
        var returned := TryOnce(insert, fates[k]);
        if returned {
          FlushedForGood(stored, Tuples(trials), fates, k + 1);
          return Some(0);
        }
      }
      assert fates[..|fates|] == fates;
      return None;
    }
  }

  lemma NumbersStart(head: seq<Value>, results: seq<real>)
    ensures Numbers(results[..0]) == [] && head + Numbers(results[..0]) == head
  {
  }

  lemma NumbersStep(head: seq<Value>, results: seq<real>, j: nat)
    requires j < |results|
    ensures |Numbers(results[..j + 1])| == j + 1
    ensures head + Numbers(results[..j + 1]) == head + Numbers(results[..j]) + [Number(results[j])]
  {
  }

  lemma NumbersEnd(before: seq<Value>, identifier: string, timestamp: string, results: seq<real>)
    ensures before + [Text(identifier)] + [Text(timestamp)] + Numbers(results[..|results|])
         == before + TrialTuple(identifier, timestamp)(results)
  {
    assert results[..|results|] == results;
  }

  // ---- Counting parameters

  /** A text written `n` times. */
  ghost function Repeated(text: string, n: nat): string {
    if n == 0 then "" else Repeated(text, n - 1) + text
  }

  lemma {:induction false} MarksOfRepeated(text: string, n: nat, each: nat)
    requires Marks(text) == each
    ensures Marks(Repeated(text, n)) == n * each
  {
    if n > 0 {
      MarksOfRepeated(text, n - 1, each);
      MarksAppend(Repeated(text, n - 1), text);
    }
  }

  lemma MarksOfGroups(size: nat, n: nat)
    ensures Marks(Repeated("(?, " + Repeated("?, ", size) + "?),", n)) == n * (size + 2)
  {
    hide Marks;
    MarksOfOpening();
    MarksOfMiddle();
    MarksOfClosing();
    MarksOfRepeated("?, ", size, 1);
    MarksAppend("(?, ", Repeated("?, ", size));
    MarksAppend("(?, " + Repeated("?, ", size), "?),");
    MarksOfRepeated("(?, " + Repeated("?, ", size) + "?),", n, size + 2);
  }

  lemma MarksOfComma()
    ensures Marks(",") == 0
  {
    assert ","[..0] == "";
  }

  lemma MarksOfOpening()
    ensures Marks("(?, ") == 1
  {
    var s := "(?, ";
    assert s[..3] == "(?," && "(?,"[..2] == "(?" && "(?"[..1] == "(" && "("[..0] == "";
  }

  lemma MarksOfMiddle()
    ensures Marks("?, ") == 1
  {
    var s := "?, ";
    assert s[..2] == "?," && "?,"[..1] == "?" && "?"[..0] == "";
  }

  lemma MarksOfClosing()
    ensures Marks("?),") == 1
  {
    var s := "?),";
    assert s[..2] == "?)" && "?)"[..1] == "?" && "?"[..0] == "";
  }

  lemma NextGroup(i: nat, size: nat)
    ensures (i + 1) * (size + 2) == i * (size + 2) + (size + 2)
  {
  }

  lemma {:induction false} RoomForGroup(i: nat, n: nat, size: nat)
    requires i < n
    ensures i * (size + 2) + (size + 2) <= n * (size + 2)
    decreases n
  {
    NextGroup(n - 1, size);
    if i < n - 1 {
      RoomForGroup(i, n - 1, size);
    }
  }
}
