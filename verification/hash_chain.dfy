/**
 Hash chains over rows of fields, as in the audit log of the capture service
 (project_a_capture_service/audit.py): each row's hash is taken over the canonical text of its
 fields together with the hash before it. The capture service keeps its fields in columns of
 their own; the two logs that keep printed documents are in stored_logs.dfy and
 attempts_file.dfy, and their rows, once read back, are such a chain.
 */
module HashChain {
  import opened Outcomes
  import opened CanonicalJson
  import opened DecimalText
  import opened SemanticEvidence

  /** A stored row: its own fields, and the two hashes as found. */
  datatype Row = Row(body: map<string, Json>, previous: Json, hash: string)

  const PREVIOUS := "previous_hash"

  /** What stands before the first row: 64 zeros in two of the logs, nothing in the third. */
  const ZEROS := Str(Zeros(64))

  predicate Genesis(start: Json) { start == ZEROS || start == Null }

  function Envelope(body: map<string, Json>, previous: Json): Json { Obj(body[PREVIOUS := previous]) }

  function Digest(body: map<string, Json>, previous: Json): Option<string> {
    match Render(Envelope(body, previous)) case Ok(text) => Some(Sha256(text)) case Err(_) => None
  }

  function Head(log: seq<Row>, start: Json): Json { if log == [] then start else Str(log[|log| - 1].hash) }

  /** `_audit` and its like: the log with one more row, unless its text cannot be printed. */
  function Append(log: seq<Row>, start: Json, body: map<string, Json>): Result<seq<Row>, NumberError> {
    var previous := Head(log, start);
    match Render(Envelope(body, previous))
    case Ok(text) => Ok(log + [Row(body, previous, Sha256(text))])
    case Err(e) => Err(e)
  }

  predicate RowOk(row: Row, previous: Json) {
    row.previous == previous && Digest(row.body, previous) == Some(row.hash)
  }

  predicate Verified(log: seq<Row>, start: Json) {
    forall i | 0 <= i < |log| :: RowOk(log[i], Head(log[..i], start))
  }

  /** The loop of `audit` and `verify_chain`. */
  method Verify(log: seq<Row>, start: Json) returns (valid: bool)
    ensures valid == Verified(log, start)
  {
    hide RowOk;
    var previous := start;
    valid := true;
    for n := 0 to |log|
      invariant valid && previous == Head(log[..n], start)
      invariant forall i | 0 <= i < n :: RowOk(log[i], Head(log[..i], start))
    {
      var row := log[n];
      if !RowOk(row, previous) {
        return false;
      }
      previous := Str(row.hash);
      assert log[..n + 1][|log[..n + 1]| - 1] == row;
    }
  }

  /** Every append keeps a verified log verified. */
  lemma AppendVerifies(log: seq<Row>, start: Json, body: map<string, Json>)
    requires Verified(log, start) && Append(log, start, body).Ok?
    ensures Verified(Append(log, start, body).value, start)
  {
    hide RowOk;
    var more := Append(log, start, body).value;
    forall i | 0 <= i < |more| ensures RowOk(more[i], Head(more[..i], start)) {
      if i < |log| {
        assert more[..i] == log[..i];
        assert RowOk(log[i], Head(log[..i], start));
      } else {
        assert more[..i] == log;
        AppendedRowOk(log, start, body);
      }
    }
  }

  lemma AppendedRowOk(log: seq<Row>, start: Json, body: map<string, Json>)
    requires Append(log, start, body).Ok?
    ensures var more := Append(log, start, body).value;
            |more| == |log| + 1 && more[..|log|] == log && RowOk(more[|log|], Head(log, start))
  {
    hide Render;
  }

  /** All rows ever appended, in order; none is refused. */
  ghost predicate BuiltFrom(log: seq<Row>, start: Json, bodies: seq<map<string, Json>>)
    decreases |bodies|
  {
    if bodies == [] then log == []
    else
      |log| == |bodies| && BuiltFrom(log[..|log| - 1], start, bodies[..|bodies| - 1]) &&
      Append(log[..|log| - 1], start, bodies[|bodies| - 1]) == Ok(log)
  }

  function Bodies(log: seq<Row>): seq<map<string, Json>> { seq(|log|, i requires 0 <= i < |log| => log[i].body) }

  lemma VerifiedSnoc(front: seq<Row>, start: Json, last: Row)
    ensures Verified(front + [last], start) <==> Verified(front, start) && RowOk(last, Head(front, start))
  {
    hide RowOk;
    var log := front + [last];
    assert log[..|front|] == front && log[|front|] == last;
    assert forall i | 0 <= i < |front| :: log[..i] == front[..i] && log[i] == front[i];
    if Verified(log, start) {
      assert RowOk(log[|front|], Head(log[..|front|], start));
      forall i | 0 <= i < |front| ensures RowOk(front[i], Head(front[..i], start)) {
        assert RowOk(log[i], Head(log[..i], start));
      }
    }
    if Verified(front, start) && RowOk(last, Head(front, start)) {
      forall i | 0 <= i < |log| ensures RowOk(log[i], Head(log[..i], start)) {
        if i < |front| {
          assert RowOk(front[i], Head(front[..i], start));
        }
      }
    }
  }

  /** A log verifies exactly when it is what appending its rows' fields in order builds. */
  lemma {:induction false} VerifiedIffBuilt(log: seq<Row>, start: Json)
    ensures Verified(log, start) <==> BuiltFrom(log, start, Bodies(log))
    decreases |log|
  {
    if log != [] {
      var front, last := log[..|log| - 1], log[|log| - 1];
      assert log == front + [last];
      VerifiedIffBuilt(front, start);
      VerifiedSnoc(front, start, last);
      LastRow(front, start, last);
      hide RowOk;
      hide Append;
      hide Verified;
      assert Bodies(log)[..|log| - 1] == Bodies(front);
    }
  }

  lemma LastRow(front: seq<Row>, start: Json, last: Row)
    ensures RowOk(last, Head(front, start)) <==> Append(front, start, last.body) == Ok(front + [last])
  {
    hide Render;
    var more := front + [last];
    assert more[|front|] == last;
    if Append(front, start, last.body).Ok? {
      assert Append(front, start, last.body).value[|front|].hash == Sha256(Render(Envelope(last.body, Head(front, start))).value);
    }
  }

  /** Verification is closed under prefixes. */
  lemma PrefixVerifies(log: seq<Row>, start: Json, n: nat)
    requires Verified(log, start) && n <= |log|
    ensures Verified(log[..n], start)
  {
    hide RowOk;
    forall i | 0 <= i < n ensures RowOk(log[..n][i], Head(log[..n][..i], start)) {
      assert log[..n][..i] == log[..i];
      assert RowOk(log[i], Head(log[..i], start));
    }
  }

  // ------------------------------------------------------ one head, one log

  /** Rows that carry the same hashes and the same fields up to numeric equality. */
  predicate SameRow(a: Row, b: Row) {
    a.hash == b.hash && a.previous == b.previous &&
    NumericForm(Obj(a.body - {PREVIOUS})) == NumericForm(Obj(b.body - {PREVIOUS}))
  }

  lemma SameDigest(a: Row, b: Row, p: Json, q: Json)
    requires RowOk(a, p) && RowOk(b, q) && a.hash == b.hash && (p.Str? || Genesis(p)) && (q.Str? || Genesis(q))
    ensures p == q && SameRow(a, b)
  {
    var x, y := Envelope(a.body, p), Envelope(b.body, q);
    hide Render;
    hide NumericForm;
    Sha256Injective(Render(x).value, Render(y).value);
    SameTextIff(x, y);
    SameFormFields(x, y);
    LinkForm(p);
    LinkForm(q);
    assert NumericForm(x.fields[PREVIOUS]) == NumericForm(y.fields[PREVIOUS]);
    var m, n := a.body - {PREVIOUS}, b.body - {PREVIOUS};
    forall k | k in m || k in n ensures k in m && k in n && NumericForm(m[k]) == NumericForm(n[k]) {
      assert k in x.fields && k in y.fields;
      assert NumericForm(x.fields[k]) == NumericForm(y.fields[k]);
    }
    SameMemberForms(m, n);
  }

  lemma LinkForm(p: Json)
    requires p.Str? || Genesis(p)
    ensures NumericForm(p) == p
  {
  }

  lemma HashIsNoGenesis(row: Row, previous: Json)
    requires RowOk(row, previous)
    ensures !Genesis(Str(row.hash))
  {
    hide Render;
    assert row.hash[0] == 's';
    assert Zeros(64)[0] == '0';
  }

  lemma HeadIsLink(log: seq<Row>, start: Json)
    requires Genesis(start)
    ensures Head(log, start).Str? || Genesis(Head(log, start))
  {
  }

  /** Two verified logs with the same last hash are equal record for record: no row can be
      changed, dropped or inserted without changing the head. */
  lemma {:induction false} HeadFixesLog(a: seq<Row>, b: seq<Row>, start: Json)
    requires Genesis(start) && Verified(a, start) && Verified(b, start) && Head(a, start) == Head(b, start)
    ensures |a| == |b| && forall i | 0 <= i < |a| :: SameRow(a[i], b[i])
    decreases |a|
  {
    hide RowOk;
    hide SameRow;
    if a == [] || b == [] {
      if a != [] { LastIsNoGenesis(a, start); }
      if b != [] { LastIsNoGenesis(b, start); }
    } else {
      var fa, fb := a[..|a| - 1], b[..|b| - 1];
      var la, lb := a[|a| - 1], b[|b| - 1];
      assert a == fa + [la] && b == fb + [lb] && la.hash == lb.hash;
      hide Verified;
      VerifiedSnoc(fa, start, la);
      VerifiedSnoc(fb, start, lb);
      HeadIsLink(fa, start);
      HeadIsLink(fb, start);
      hide Head;
      SameDigest(la, lb, Head(fa, start), Head(fb, start));
      HeadFixesLog(fa, fb, start);
    }
  }

  lemma LastIsNoGenesis(log: seq<Row>, start: Json)
    requires log != [] && Genesis(start) && Verified(log, start)
    ensures Head(log, start) != start
  {
    assert RowOk(log[|log| - 1], Head(log[..|log| - 1], start));
    HashIsNoGenesis(log[|log| - 1], Head(log[..|log| - 1], start));
  }

  // ------------------------------------------------------ the stored log

  /** A log table or file, with its writer and its reader. */
  class Log {
    const start: Json
    var rows: seq<Row>

    constructor (start: Json)
      ensures rows == [] && this.start == start
    {
      this.start := start;
      rows := [];
    }

    method Add(body: map<string, Json>) returns (raised: Option<NumberError>)
      modifies this
      ensures match Append(old(rows), start, body)
              case Ok(more) => rows == more && raised == None
              case Err(e) => rows == old(rows) && raised == Some(e)
      ensures Verified(old(rows), start) ==> Verified(rows, start)
    {
      var previous := start;
      if rows != [] {
        previous := Str(rows[|rows| - 1].hash);
      }
      ghost var before := rows;
      var text := Render(Envelope(body, previous));
      if text.Err? {
        return Some(text.error);
      }
      rows := rows + [Row(body, previous, Sha256(text.value))];
      if Verified(before, start) {
        AppendVerifies(before, start, body);
      }
      return None;
    }
  }
}
