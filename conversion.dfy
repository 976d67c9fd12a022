/** The conversion context and the entry points that update it in place:
    sequence conversion (inserts into the sequence map), check-constraint
    conversion (consults and grows the used-name registry) and expression
    verification (filters each target table's check constraints). */
module Conversion {
  import opened Ddl
  import Src = SourceSchema
  import opened ToDdl

  // ---------------------------------------------------------------------------
  // Keeping the constraints whose expression verified

  /** Some expression failed verification. */
  predicate AnyFailed(verdicts: seq<bool>) {
    exists k :: 0 <= k < |verdicts| && !verdicts[k]
  }

  /** The constraints whose verdict is success, in their original order.
      `verdicts` is parallel to `ccs`: one result per expression. */
  function Keep(ccs: seq<CheckConstraint>, verdicts: seq<bool>): (r: seq<CheckConstraint>)
    requires |verdicts| == |ccs|
    ensures |r| <= |ccs|
    ensures multiset(r) <= multiset(ccs)
  {
    if ccs == [] then []
    else
      assert ccs == [ccs[0]] + ccs[1..];
      (if verdicts[0] then [ccs[0]] else []) + Keep(ccs[1..], verdicts[1..])
  }

  /** Keep works constraint by constraint: it distributes over concatenation,
      so the retained constraints stay in their original order. */
  lemma {:induction false} KeepAppend(a: seq<CheckConstraint>, va: seq<bool>, b: seq<CheckConstraint>, vb: seq<bool>)
    requires |va| == |a| && |vb| == |b|
    ensures Keep(a + b, va + vb) == Keep(a, va) + Keep(b, vb)
  {
    if a == [] {
      assert a + b == b && va + vb == vb;
    } else {
      assert (a + b)[0] == a[0] && (a + b)[1..] == a[1..] + b;
      assert (va + vb)[0] == va[0] && (va + vb)[1..] == va[1..] + vb;
      KeepAppend(a[1..], va[1..], b, vb);
    }
  }

  /** Extending the input by one constraint extends the result by it exactly
      when its verdict is success. */
  lemma KeepSnoc(ccs: seq<CheckConstraint>, verdicts: seq<bool>, i: nat)
    requires |verdicts| == |ccs| && i < |ccs|
    ensures Keep(ccs[..i + 1], verdicts[..i + 1])
         == Keep(ccs[..i], verdicts[..i]) + (if verdicts[i] then [ccs[i]] else [])
  {
    KeepAppend(ccs[..i], verdicts[..i], [ccs[i]], [verdicts[i]]);
    assert ccs[..i + 1] == ccs[..i] + [ccs[i]];
    assert verdicts[..i + 1] == verdicts[..i] + [verdicts[i]];
  }

  /** Only constraints whose verdict is success are retained. */
  lemma {:induction false} KeepOnlyPassing(ccs: seq<CheckConstraint>, verdicts: seq<bool>, c: CheckConstraint)
    requires |verdicts| == |ccs| && c in Keep(ccs, verdicts)
    ensures exists i :: 0 <= i < |ccs| && verdicts[i] && ccs[i] == c
  {
    if verdicts[0] && c == ccs[0] {
      assert verdicts[0] && ccs[0] == c;
    } else {
      KeepOnlyPassing(ccs[1..], verdicts[1..], c);
      var i :| 0 <= i < |ccs[1..]| && verdicts[1..][i] && ccs[1..][i] == c;
      assert verdicts[i + 1] && ccs[i + 1] == c;
    }
  }

  /** Every constraint whose verdict is success is retained. */
  lemma {:induction false} KeepRetainsPassing(ccs: seq<CheckConstraint>, verdicts: seq<bool>, i: nat)
    requires |verdicts| == |ccs| && i < |ccs| && verdicts[i]
    ensures ccs[i] in Keep(ccs, verdicts)
  {
    if i > 0 {
      KeepRetainsPassing(ccs[1..], verdicts[1..], i - 1);
    }
  }

  /** As many constraints are retained as there are successful verdicts. */
  lemma {:induction false} KeepCount(ccs: seq<CheckConstraint>, verdicts: seq<bool>)
    requires |verdicts| == |ccs|
    ensures |Keep(ccs, verdicts)| == multiset(verdicts)[true]
  {
    if ccs != [] {
      KeepCount(ccs[1..], verdicts[1..]);
      assert verdicts == [verdicts[0]] + verdicts[1..];
    }
  }

  /** When no expression failed, every constraint is retained. */
  lemma {:induction false} KeepAllPassing(ccs: seq<CheckConstraint>, verdicts: seq<bool>)
    requires |verdicts| == |ccs| && !AnyFailed(verdicts)
    ensures Keep(ccs, verdicts) == ccs
  {
    if ccs != [] {
      assert verdicts[0];
      assert !AnyFailed(verdicts[1..]) by {
        forall k | 0 <= k < |verdicts| - 1 ensures verdicts[1..][k] {
          assert verdicts[k + 1];
        }
      }
      KeepAllPassing(ccs[1..], verdicts[1..]);
    }
  }

  /** The verification test cases: a single valid expression is kept; of a
      valid and a failing one (syntax, name or type error alike), only the
      valid one is kept. */
  lemma KeepExamples(valid: CheckConstraint, invalid: CheckConstraint)
    ensures Keep([valid], [true]) == [valid]
    ensures Keep([valid, invalid], [true, false]) == [valid]
  {
    assert [valid, invalid][1..] == [invalid];
  }

  /** Some expression of one of the given tables failed verification. */
  predicate FailedAmong(verdicts: map<string, seq<bool>>, tables: set<string>) {
    exists t :: t in tables && t in verdicts && AnyFailed(verdicts[t])
  }

  /** Adding one table to those inspected adds exactly its own failures. */
  lemma FailedAmongAdd(verdicts: map<string, seq<bool>>, tables: set<string>, t: string)
    requires t in verdicts
    ensures FailedAmong(verdicts, tables + {t}) <==> FailedAmong(verdicts, tables) || AnyFailed(verdicts[t])
  {
    if FailedAmong(verdicts, tables + {t}) && !AnyFailed(verdicts[t]) {
      var u :| u in tables + {t} && u in verdicts && AnyFailed(verdicts[u]);
      assert u in tables;
    }
  }

  /** The table with only the check constraints whose verdict is success. */
  function Verified(table: CreateTable, verdicts: seq<bool>): (r: CreateTable)
    requires |verdicts| == |table.checkConstraints|
    ensures r.name == table.name && r.id == table.id && r.colIds == table.colIds && r.colDefs == table.colDefs
    ensures r.primaryKeys == table.primaryKeys && r.foreignKeys == table.foreignKeys && r.indexes == table.indexes
    ensures |r.checkConstraints| <= |table.checkConstraints|
  {
    table.(checkConstraints := Keep(table.checkConstraints, verdicts))
  }

  /** `verdicts` holds one result per check constraint of every table. */
  predicate VerdictsFor(schema: Schema, verdicts: map<string, seq<bool>>) {
    forall t :: t in schema ==> t in verdicts && |verdicts[t]| == |schema[t].checkConstraints|
  }

  /** The schema once the tables in `done` have been filtered. */
  function PartlyVerified(schema: Schema, verdicts: map<string, seq<bool>>, done: set<string>): (r: Schema)
    requires VerdictsFor(schema, verdicts)
    ensures r.Keys == schema.Keys
  {
    map t | t in schema :: if t in done then Verified(schema[t], verdicts[t]) else schema[t]
  }

  /** Filtering one more table extends the filtered set by that table. */
  lemma PartlyVerifiedStep(schema: Schema, verdicts: map<string, seq<bool>>, done: set<string>, t: string)
    requires VerdictsFor(schema, verdicts) && t in schema
    ensures PartlyVerified(schema, verdicts, done)[t := Verified(schema[t], verdicts[t])]
         == PartlyVerified(schema, verdicts, done + {t})
  {
  }

  /** Filters one table's constraints by the verifier's results; also reports
      whether any expression failed. */
  method FilterByVerdicts(ccs: seq<CheckConstraint>, verdicts: seq<bool>) returns (kept: seq<CheckConstraint>, failed: bool)
    requires |verdicts| == |ccs|
    ensures kept == Keep(ccs, verdicts)
    ensures failed <==> AnyFailed(verdicts)
  {
    kept, failed := [], false;
    var i := 0;
    while i < |ccs|
      invariant 0 <= i <= |ccs|
      invariant kept == Keep(ccs[..i], verdicts[..i])
      invariant failed <==> exists k :: 0 <= k < i && !verdicts[k]
    {
      KeepSnoc(ccs, verdicts, i);
      if verdicts[i] {
        kept := kept + [ccs[i]];
      } else {
        failed := true;
      }
      i := i + 1;
    }
    assert ccs[..i] == ccs && verdicts[..i] == verdicts;
  }

  // ---------------------------------------------------------------------------
  // The conversion context

  /** The conversion context of one migration run: the target schema, the
      target sequences keyed by id, and the registry of used names. */
  class Conv {
    var spSchema: Schema
    var spSequences: map<string, Sequence>
    var usedNames: set<string>

    /** A fresh context: everything empty. */
    constructor ()
      ensures spSchema == map[] && spSequences == map[] && usedNames == {}
    {
      spSchema := map[];
      spSequences := map[];
      usedNames := {};
    }

    /** `SchemaToSpannerSequenceHelper`: stores the converted sequence under its
        id, replacing any sequence with that id; nothing else changes. */
    method SchemaToSpannerSequenceHelper(srcSequence: Sequence)
      modifies this`spSequences
      ensures spSequences == old(spSequences)[srcSequence.id := CvtSequence(srcSequence)]
    {
      spSequences := spSequences[srcSequence.id := CvtSequence(srcSequence)];
    }

    /** `cvtCheckConstraint`: converts the constraints in order, registering
        each sanitized name in the used names. Every returned name is fresh
        with respect to the names used before the call and is now registered. */
    method CvtCheckConstraint(srcChecks: seq<Src.CheckConstraint>, pick: (string, set<string>) -> string)
      returns (spChecks: seq<CheckConstraint>)
      requires Disambiguates(pick)
      modifies this`usedNames
      ensures spChecks == CvtCheckConstraints(old(usedNames), srcChecks, pick).0
      ensures usedNames == CvtCheckConstraints(old(usedNames), srcChecks, pick).1
      ensures forall i :: 0 <= i < |spChecks| ==> spChecks[i].name !in old(usedNames) && spChecks[i].name in usedNames
    {
      spChecks := [];
      var i := 0;
      assert srcChecks[i..] == srcChecks;
      assert spChecks + CvtCheckConstraints(usedNames, srcChecks[i..], pick).0
          == CvtCheckConstraints(usedNames, srcChecks[i..], pick).0;
      while i < |srcChecks|
        invariant 0 <= i <= |srcChecks|
        invariant CvtCheckConstraints(old(usedNames), srcChecks, pick).0
               == spChecks + CvtCheckConstraints(usedNames, srcChecks[i..], pick).0
        invariant CvtCheckConstraints(old(usedNames), srcChecks, pick).1
               == CvtCheckConstraints(usedNames, srcChecks[i..], pick).1
      {
        var name := Register(usedNames, Sanitize(srcChecks[i].name), pick);
        CvtCheckConstraintsStep(usedNames, srcChecks, i, pick);
        spChecks := spChecks + [CheckConstraint(srcChecks[i].id, name, srcChecks[i].expr, "")];
        usedNames := usedNames + {name};
        i := i + 1;
      }
      assert srcChecks[i..] == [];
      assert CvtCheckConstraints(usedNames, [], pick) == ([], usedNames);
      ghost var r := CvtCheckConstraints(old(usedNames), srcChecks, pick);
      assert r.0 == spChecks;
      assert r.1 == usedNames;
      CheckConstraintsShape(old(usedNames), srcChecks, pick);
      assert r.1 == old(usedNames) + Names(r.0);
      forall j | 0 <= j < |spChecks| ensures spChecks[j].name in usedNames {
        InNames(spChecks, j);
      }
    }

    /** `VerifyExpressions`: with `verdicts[t]` the verifier's results for the
        check constraints of table t, in order, every table keeps exactly the
        constraints that verified, in order, and nothing else changes. The
        result says whether any expression failed. */
    method VerifyExpressions(verdicts: map<string, seq<bool>>) returns (needsAttention: bool)
      requires VerdictsFor(spSchema, verdicts)
      modifies this`spSchema
      ensures spSchema.Keys == old(spSchema).Keys
      ensures forall t :: t in spSchema ==> spSchema[t] == Verified(old(spSchema)[t], verdicts[t])
      ensures needsAttention <==> FailedAmong(verdicts, old(spSchema).Keys)
    {
      needsAttention := false;
      ghost var before := spSchema;
      var todo := spSchema.Keys;
      ghost var done: set<string> := {};
      assert spSchema == PartlyVerified(before, verdicts, done);
      while todo != {}
        invariant todo <= before.Keys && done == before.Keys - todo
        invariant spSchema == PartlyVerified(before, verdicts, done)
        invariant needsAttention <==> FailedAmong(verdicts, done)
        decreases todo
      {
        var t :| t in todo;
        var table := spSchema[t];
        assert table == before[t];
        var kept, failed := FilterByVerdicts(table.checkConstraints, verdicts[t]);
        PartlyVerifiedStep(before, verdicts, done, t);
        spSchema := spSchema[t := table.(checkConstraints := kept)];
        FailedAmongAdd(verdicts, done, t);
        needsAttention := needsAttention || failed;
        todo := todo - {t};
        done := done + {t};
      }
      assert done == before.Keys;
    }
  }

  /** The sequence test: in a fresh context, converting the AUTO_INCREMENT
      sequence `s1` stores it under `s1` as BIT REVERSED POSITIVE with its name
      and range values unchanged, and the rest of the context stays empty. */
  method SequenceHelperExample() returns (conv: Conv)
    ensures conv.spSequences == map["s1" := Sequence("Sequence1", "s1", BitReversedPositive, "1", "2", "3")]
    ensures conv.spSchema == map[] && conv.usedNames == {}
  {
    conv := new Conv();
    conv.SchemaToSpannerSequenceHelper(Sequence("Sequence1", "s1", Src.AutoIncrement, "1", "2", "3"));
  }
}
