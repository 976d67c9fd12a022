/** The source-schema to Spanner-DDL converters: identifier quoting, primary
    keys, foreign keys (including the reference-table pass), indexes, sequences,
    check-constraint names (sanitizer and name registry). All of them are pure
    record and list transformations; the conversion context that the mutating
    entry points update is in module Conversion. */
module ToDdl {
  import opened Ddl
  import Src = SourceSchema
  import Decimal

  // ---------------------------------------------------------------------------
  // Identifier quoting

  predicate IsLetter(c: char) {
    'a' <= c <= 'z' || 'A' <= c <= 'Z'
  }

  /** Characters that may stand in an identifier: letters, digits and `_`. */
  predicate IsIdentChar(c: char) {
    IsLetter(c) || Decimal.IsDigit(c) || c == '_'
  }

  predicate NeedsQuoting(s: string) {
    exists i :: 0 <= i < |s| && !IsIdentChar(s[i])
  }

  /** `quoteIfNeeded`: a name holding a character outside letters, digits and
      `_` (a space, say) is wrapped in double quotes; any other name is kept. */
  function QuoteIfNeeded(s: string): (r: string)
    ensures !NeedsQuoting(s) ==> r == s
    ensures NeedsQuoting(s) ==> |r| == |s| + 2 && r[0] == '"' && r[|r| - 1] == '"' && r[1..|r| - 1] == s
  {
    if NeedsQuoting(s) then "\"" + s + "\"" else s
  }

  /** Strips one pair of enclosing double quotes, if present. */
  function Unquote(r: string): string {
    if |r| >= 2 && r[0] == '"' && r[|r| - 1] == '"' then r[1..|r| - 1] else r
  }

  /** Quoting loses nothing: unquoting gives the name back. */
  lemma QuoteRoundTrip(s: string)
    ensures Unquote(QuoteIfNeeded(s)) == s
  {
    if !NeedsQuoting(s) && |s| >= 2 {
      assert IsIdentChar(s[0]);
    }
  }

  /** The table name `table Name` is quoted because of its space. */
  lemma QuoteTableWithSpace()
    ensures QuoteIfNeeded("table Name") == "\"table Name\""
  {
    var s := "table Name";
    assert s[5] == ' ' && !IsIdentChar(s[5]);
    assert NeedsQuoting(s);
  }

  // ---------------------------------------------------------------------------
  // Primary keys

  function CvtKey(k: Src.Key): IndexKey {
    IndexKey(k.colId, k.desc, k.order)
  }

  /** `cvtPrimaryKeys`: one target key per source key, in the same order, with
      the column id, descending flag and ordinal position carried over. */
  function CvtPrimaryKeys(srcKeys: seq<Src.Key>): (r: seq<IndexKey>)
    ensures |r| == |srcKeys|
    ensures forall i :: 0 <= i < |r| ==>
      r[i].colId == srcKeys[i].colId && r[i].desc == srcKeys[i].desc && r[i].order == srcKeys[i].order
  {
    if srcKeys == [] then [] else [CvtKey(srcKeys[0])] + CvtPrimaryKeys(srcKeys[1..])
  }

  /** Reads target keys back as source keys (the partner of CvtPrimaryKeys). */
  function SourceKeys(keys: seq<IndexKey>): seq<Src.Key> {
    if keys == [] then [] else [Src.Key(keys[0].colId, keys[0].desc, keys[0].order)] + SourceKeys(keys[1..])
  }

  /** Key conversion is lossless: reading the converted keys back gives the source keys. */
  lemma {:induction false} PrimaryKeysRoundTrip(srcKeys: seq<Src.Key>)
    ensures SourceKeys(CvtPrimaryKeys(srcKeys)) == srcKeys
  {
    if srcKeys != [] {
      PrimaryKeysRoundTrip(srcKeys[1..]);
    }
  }

  /** The single key of the primary-key test: `c1`, descending, position 1. */
  lemma PrimaryKeyExample()
    ensures CvtPrimaryKeys([Src.Key("c1", true, 1)]) == [IndexKey("c1", true, 1)]
  {
  }

  // ---------------------------------------------------------------------------
  // Foreign keys

  /** Target and source foreign key name the same constraint, columns and referenced table. */
  predicate SameReference(k: ForeignKey, fk: Src.ForeignKey) {
    && k.name == fk.name && k.id == fk.id && k.colIds == fk.colIds
    && k.referTableId == fk.referTableId && k.referColumnIds == fk.referColumnIds
  }

  /** Both referential actions are downgraded to NO ACTION. */
  predicate NoActions(k: ForeignKey) {
    k.onDelete == FkNoAction && k.onUpdate == FkNoAction
  }

  function CvtForeignKey(fk: Src.ForeignKey): (k: ForeignKey)
    ensures SameReference(k, fk) && NoActions(k)
  {
    ForeignKey(fk.name, fk.colIds, fk.referTableId, fk.referColumnIds, fk.id, FkNoAction, FkNoAction)
  }

  /** `cvtForeignKeys`: each source foreign key whose referenced table exists in
      the source schema is copied verbatim with both actions set to NO ACTION;
      a key with an unresolvable referenced table is skipped. Order is kept. */
  function CvtForeignKeys(srcTables: map<string, Src.Table>, srcKeys: seq<Src.ForeignKey>): (r: seq<ForeignKey>)
    ensures |r| <= |srcKeys|
    ensures forall j :: 0 <= j < |r| ==> NoActions(r[j]) && r[j].referTableId in srcTables
    ensures forall j :: 0 <= j < |r| ==> exists i :: 0 <= i < |srcKeys| && SameReference(r[j], srcKeys[i])
    ensures (forall i :: 0 <= i < |srcKeys| ==> srcKeys[i].referTableId in srcTables) ==>
      |r| == |srcKeys| && forall i :: 0 <= i < |r| ==> SameReference(r[i], srcKeys[i])
  {
    if srcKeys == [] then []
    else
      var rest := CvtForeignKeys(srcTables, srcKeys[1..]);
      if srcKeys[0].referTableId in srcTables then [CvtForeignKey(srcKeys[0])] + rest else rest
  }

  /** Conversion distributes over concatenation, so it keeps the source order. */
  lemma {:induction false} CvtForeignKeysAppend(srcTables: map<string, Src.Table>, a: seq<Src.ForeignKey>, b: seq<Src.ForeignKey>)
    ensures CvtForeignKeys(srcTables, a + b) == CvtForeignKeys(srcTables, a) + CvtForeignKeys(srcTables, b)
  {
    if a == [] {
      assert a + b == b;
    } else {
      assert (a + b)[0] == a[0] && (a + b)[1..] == a[1..] + b;
      CvtForeignKeysAppend(srcTables, a[1..], b);
    }
  }

  /** The foreign-key test: `fk1` on `c1` referencing `t2.c3` with RESTRICT /
      CASCADE becomes the same key with NO ACTION / NO ACTION. */
  lemma ForeignKeyExample(srcTables: map<string, Src.Table>)
    requires "t2" in srcTables
    ensures CvtForeignKeys(srcTables,
              [Src.ForeignKey("fk1", "f1", ["a"], ["c1"], "t2", "table2", ["c3"], ["c"], Src.FkRestrict, Src.FkCascade)])
         == [ForeignKey("fk1", ["c1"], "t2", ["c3"], "f1", FkNoAction, FkNoAction)]
  {
  }

  // ---------------------------------------------------------------------------
  // Foreign keys for a reference table

  /** The source keys that reference the given table, in order. */
  function ReferringTo(srcKeys: seq<Src.ForeignKey>, referTableId: string): (r: seq<Src.ForeignKey>)
    ensures |r| <= |srcKeys|
    ensures forall j :: 0 <= j < |r| ==> r[j].referTableId == referTableId && r[j] in srcKeys
    ensures forall i :: 0 <= i < |srcKeys| && srcKeys[i].referTableId == referTableId ==> srcKeys[i] in r
  {
    if srcKeys == [] then []
    else
      var rest := ReferringTo(srcKeys[1..], referTableId);
      if srcKeys[0].referTableId == referTableId then [srcKeys[0]] + rest else rest
  }

  /** When every key references the table, none is filtered out. */
  lemma {:induction false} ReferringToAll(srcKeys: seq<Src.ForeignKey>, referTableId: string)
    requires forall i :: 0 <= i < |srcKeys| ==> srcKeys[i].referTableId == referTableId
    ensures ReferringTo(srcKeys, referTableId) == srcKeys
  {
    if srcKeys != [] {
      ReferringToAll(srcKeys[1..], referTableId);
    }
  }

  /** Selection distributes over concatenation, so the selected keys keep
      their source order. */
  lemma {:induction false} ReferringToAppend(a: seq<Src.ForeignKey>, b: seq<Src.ForeignKey>, referTableId: string)
    ensures ReferringTo(a + b, referTableId) == ReferringTo(a, referTableId) + ReferringTo(b, referTableId)
  {
    if a == [] {
      assert a + b == b;
    } else {
      assert (a + b)[0] == a[0] && (a + b)[1..] == a[1..] + b;
      ReferringToAppend(a[1..], b, referTableId);
    }
  }

  /** Every source key whose referenced table exists is converted. */
  lemma {:induction false} CvtForeignKeysKeeps(srcTables: map<string, Src.Table>, srcKeys: seq<Src.ForeignKey>, i: nat)
    requires i < |srcKeys| && srcKeys[i].referTableId in srcTables
    ensures CvtForeignKey(srcKeys[i]) in CvtForeignKeys(srcTables, srcKeys)
  {
    if i > 0 {
      CvtForeignKeysKeeps(srcTables, srcKeys[1..], i - 1);
    }
  }

  /** Every source key that references an existing table is among the
      conversions of the keys referring to that table. */
  lemma ReferringKeysConverted(srcTables: map<string, Src.Table>, referTableId: string, srcKeys: seq<Src.ForeignKey>)
    ensures referTableId in srcTables ==>
      forall i :: 0 <= i < |srcKeys| && srcKeys[i].referTableId == referTableId ==>
        CvtForeignKey(srcKeys[i]) in CvtForeignKeys(srcTables, ReferringTo(srcKeys, referTableId))
  {
    var referring := ReferringTo(srcKeys, referTableId);
    if referTableId in srcTables {
      forall i | 0 <= i < |srcKeys| && srcKeys[i].referTableId == referTableId
        ensures CvtForeignKey(srcKeys[i]) in CvtForeignKeys(srcTables, referring)
      {
        var j :| 0 <= j < |referring| && referring[j] == srcKeys[i];
        CvtForeignKeysKeeps(srcTables, referring, j);
      }
    }
  }

  /** `cvtForeignKeysForAReferenceTable`: the existing target keys, unchanged,
      followed by the conversions of the source keys that reference
      `referTableId`. */
  function CvtForeignKeysForAReferenceTable(
    srcTables: map<string, Src.Table>, referTableId: string,
    srcKeys: seq<Src.ForeignKey>, spKeys: seq<ForeignKey>): (r: seq<ForeignKey>)
    ensures |spKeys| <= |r| <= |spKeys| + |srcKeys| && r[..|spKeys|] == spKeys
    ensures forall j :: |spKeys| <= j < |r| ==> r[j].referTableId == referTableId && NoActions(r[j])
    ensures referTableId in srcTables ==>
      forall i :: 0 <= i < |srcKeys| && srcKeys[i].referTableId == referTableId ==> CvtForeignKey(srcKeys[i]) in r[|spKeys|..]
  {
    ReferringKeysConverted(srcTables, referTableId, srcKeys);
    spKeys + CvtForeignKeys(srcTables, ReferringTo(srcKeys, referTableId))
  }

  /** When every referenced table exists, the conversion is key by key. */
  lemma {:induction false} CvtForeignKeysAll(srcTables: map<string, Src.Table>, srcKeys: seq<Src.ForeignKey>)
    requires forall i :: 0 <= i < |srcKeys| ==> srcKeys[i].referTableId in srcTables
    ensures var r := CvtForeignKeys(srcTables, srcKeys);
      |r| == |srcKeys| && forall i :: 0 <= i < |srcKeys| ==> r[i] == CvtForeignKey(srcKeys[i])
  {
    if srcKeys != [] {
      var tail := srcKeys[1..];
      assert forall i :: 0 <= i < |tail| ==> tail[i] == srcKeys[i + 1];
      CvtForeignKeysAll(srcTables, tail);
      var rest := CvtForeignKeys(srcTables, tail);
      var r := [CvtForeignKey(srcKeys[0])] + rest;
      assert CvtForeignKeys(srcTables, srcKeys) == r;
      forall i | 1 <= i < |srcKeys| ensures r[i] == CvtForeignKey(srcKeys[i]) {
        assert r[i] == rest[i - 1];
      }
    }
  }

  /** When every source key references the table, which exists, the result is
      the existing target keys followed by every source key converted, in
      order, whatever the existing keys are. */
  lemma {:induction false} ReferenceTableAppendsAll(
    srcTables: map<string, Src.Table>, referTableId: string,
    srcKeys: seq<Src.ForeignKey>, spKeys: seq<ForeignKey>)
    requires referTableId in srcTables
    requires forall i :: 0 <= i < |srcKeys| ==> srcKeys[i].referTableId == referTableId
    ensures CvtForeignKeysForAReferenceTable(srcTables, referTableId, srcKeys, spKeys)
         == spKeys + seq(|srcKeys|, i requires 0 <= i < |srcKeys| => CvtForeignKey(srcKeys[i]))
  {
    var converted := CvtForeignKeys(srcTables, srcKeys);
    assert converted == seq(|srcKeys|, i requires 0 <= i < |srcKeys| => CvtForeignKey(srcKeys[i])) by {
      CvtForeignKeysAll(srcTables, srcKeys);
    }
    assert ReferringTo(srcKeys, referTableId) == srcKeys by {
      ReferringToAll(srcKeys, referTableId);
    }
  }

  /** A table whose foreign keys all reference itself gets each of them twice
      when the table-local pass is followed by the reference-table pass. */
  lemma SelfReferenceDuplicates(srcTables: map<string, Src.Table>, tableId: string, srcKeys: seq<Src.ForeignKey>)
    requires tableId in srcTables
    requires forall i :: 0 <= i < |srcKeys| ==> srcKeys[i].referTableId == tableId
    ensures var local := CvtForeignKeys(srcTables, srcKeys);
            CvtForeignKeysForAReferenceTable(srcTables, tableId, srcKeys, local) == local + local
    ensures |CvtForeignKeys(srcTables, srcKeys)| == |srcKeys|
  {
    ReferringToAll(srcKeys, tableId);
  }

  /** The reference-table test: `fk1`, referencing `t2` itself, is appended to
      the already converted `fk1`, giving two identical entries. */
  lemma ReferenceTableExample(srcTables: map<string, Src.Table>)
    requires "t2" in srcTables
    ensures var fk := ForeignKey("fk1", ["c1"], "t2", ["c3"], "f1", FkNoAction, FkNoAction);
            CvtForeignKeysForAReferenceTable(srcTables, "t2",
              [Src.ForeignKey("fk1", "f1", ["a"], ["c1"], "t2", "table2", ["c3"], ["c"], Src.FkRestrict, Src.FkCascade)],
              [fk])
            == [fk, fk]
  {
  }

  // ---------------------------------------------------------------------------
  // Indexes

  function CvtIndex(tableId: string, idx: Src.Index): CreateIndex {
    CreateIndex(idx.name, tableId, idx.unique, CvtPrimaryKeys(idx.keys), idx.id, idx.storedColumnIds)
  }

  /** `cvtIndexes`: one target index per source index, in order, with name,
      uniqueness, id and stored columns copied, keys converted field by field,
      and the target table id stamped on. */
  function CvtIndexes(tableId: string, srcIndexes: seq<Src.Index>): (r: seq<CreateIndex>)
    ensures |r| == |srcIndexes|
    ensures forall i :: 0 <= i < |r| ==>
      && r[i].name == srcIndexes[i].name && r[i].unique == srcIndexes[i].unique
      && r[i].id == srcIndexes[i].id && r[i].storedColumnIds == srcIndexes[i].storedColumnIds
      && r[i].tableId == tableId
      && SourceKeys(r[i].keys) == srcIndexes[i].keys
  {
    if srcIndexes == [] then []
    else
      PrimaryKeysRoundTrip(srcIndexes[0].keys);
      [CvtIndex(tableId, srcIndexes[0])] + CvtIndexes(tableId, srcIndexes[1..])
  }

  /** The index test: `indexName` over `c1..c3`, unique, stamped with table `t1`. */
  lemma IndexExample()
    ensures var keys := [Src.Key("c1", true, 1), Src.Key("c2", true, 2), Src.Key("c3", true, 3)];
            CvtIndexes("t1", [Src.Index("indexName", true, keys, "t1", ["c1", "c2", "c3"])])
            == [CreateIndex("indexName", "t1", true,
                  [IndexKey("c1", true, 1), IndexKey("c2", true, 2), IndexKey("c3", true, 3)],
                  "t1", ["c1", "c2", "c3"])]
  {
    var keys := [Src.Key("c1", true, 1), Src.Key("c2", true, 2), Src.Key("c3", true, 3)];
    var converted := CvtPrimaryKeys(keys);
    assert converted == [IndexKey("c1", true, 1), IndexKey("c2", true, 2), IndexKey("c3", true, 3)] by {
      assert converted[0] == IndexKey("c1", true, 1);
      assert converted[1] == IndexKey("c2", true, 2);
      assert converted[2] == IndexKey("c3", true, 3);
    }
  }

  // ---------------------------------------------------------------------------
  // Sequences

  /** The sequence conversion of `SchemaToSpannerSequenceHelper`: the
      AUTO_INCREMENT kind becomes BIT REVERSED POSITIVE, every other field is
      carried over as an opaque string. */
  function CvtSequence(src: Sequence): (r: Sequence)
    ensures r.name == src.name && r.id == src.id
    ensures r.skipRangeMin == src.skipRangeMin && r.skipRangeMax == src.skipRangeMax
    ensures r.startWithCounter == src.startWithCounter
    ensures src.sequenceKind == Src.AutoIncrement ==> r.sequenceKind == BitReversedPositive
    ensures src.sequenceKind != Src.AutoIncrement ==> r.sequenceKind == src.sequenceKind
  {
    if src.sequenceKind == Src.AutoIncrement then src.(sequenceKind := BitReversedPositive) else src
  }

  /** A converted sequence never carries the source-only AUTO_INCREMENT kind,
      so converting twice changes nothing more. */
  lemma CvtSequenceIdempotent(src: Sequence)
    ensures CvtSequence(src).sequenceKind != Src.AutoIncrement
    ensures CvtSequence(CvtSequence(src)) == CvtSequence(src)
  {
  }

  // ---------------------------------------------------------------------------
  // Identifier sanitizer

  /** A legal target identifier: a letter, then letters, digits or `_`. */
  predicate IsLegalIdentifier(s: string) {
    |s| >= 1 && IsLetter(s[0]) && forall i :: 1 <= i < |s| ==> IsIdentChar(s[i])
  }

  /** The sanitizer: a leading character that is not a letter becomes `A`, and
      every later character outside letters, digits and `_` becomes `_`. */
  function Sanitize(s: string): (r: string)
    ensures |r| == |s|
    ensures s != [] ==> IsLegalIdentifier(r)
    ensures forall i :: 0 <= i < |s| && (if i == 0 then IsLetter(s[i]) else IsIdentChar(s[i])) ==> r[i] == s[i]
  {
    if s == [] then []
    else [if IsLetter(s[0]) then s[0] else 'A']
         + seq(|s| - 1, i requires 0 <= i < |s| - 1 => if IsIdentChar(s[i + 1]) then s[i + 1] else '_')
  }

  /** Legal names are left alone, so sanitizing is idempotent. */
  lemma SanitizeIdempotent(s: string)
    ensures IsLegalIdentifier(s) ==> Sanitize(s) == s
    ensures Sanitize(Sanitize(s)) == Sanitize(s)
  {
    if IsLegalIdentifier(s) {
      assert forall i :: 0 <= i < |s| ==> Sanitize(s)[i] == s[i];
    }
    if s != [] {
      var t := Sanitize(s);
      assert forall i :: 0 <= i < |t| ==> Sanitize(t)[i] == t[i];
    }
  }

  /** The sanitizer on the check-constraint test names. */
  lemma SanitizeExamples()
    ensures Sanitize("check_1") == "check_1" && Sanitize("check_2") == "check_2"
    ensures Sanitize("@invalid_name") == "Ainvalid_name"
  {
    SanitizeIdempotent("check_1");
    SanitizeIdempotent("check_2");
    assert IsLegalIdentifier("Ainvalid_name");
    var r := Sanitize("@invalid_name");
    assert forall i :: 1 <= i < 13 ==> r[i] == "Ainvalid_name"[i];
  }

  // ---------------------------------------------------------------------------
  // Name registry

  /** The registry's disambiguation scheme is left open: any function that,
      given a taken candidate and the used names, yields an unused name. */
  ghost predicate Disambiguates(pick: (string, set<string>) -> string) {
    forall c, used :: pick(c, used) !in used
  }

  /** Registering a candidate: kept if unused, otherwise replaced by an unused name. */
  function Register(used: set<string>, candidate: string, pick: (string, set<string>) -> string): (name: string)
    requires Disambiguates(pick)
    ensures name !in used
    ensures candidate !in used ==> name == candidate
  {
    if candidate !in used then candidate else pick(candidate, used)
  }

  // ---------------------------------------------------------------------------
  // Check constraints

  /** The names of a list of constraints. */
  function Names(cs: seq<CheckConstraint>): set<string> {
    if cs == [] then {} else {cs[0].name} + Names(cs[1..])
  }

  lemma {:induction false} InNames(cs: seq<CheckConstraint>, i: nat)
    requires i < |cs|
    ensures cs[i].name in Names(cs)
  {
    if i > 0 {
      InNames(cs[1..], i - 1);
    }
  }

  /** `cvtCheckConstraint` against the used names `used`: each constraint keeps
      its id and expression, and gets its sanitized name registered. Returns the
      converted constraints and the grown set of used names. */
  function CvtCheckConstraints(used: set<string>, srcs: seq<Src.CheckConstraint>, pick: (string, set<string>) -> string)
    : (r: (seq<CheckConstraint>, set<string>))
    requires Disambiguates(pick)
    ensures |r.0| == |srcs|
    decreases |srcs|
  {
    if srcs == [] then ([], used)
    else
      var name := Register(used, Sanitize(srcs[0].name), pick);
      var rest := CvtCheckConstraints(used + {name}, srcs[1..], pick);
      ([CheckConstraint(srcs[0].id, name, srcs[0].expr, "")] + rest.0, rest.1)
  }

  /** Each converted constraint keeps its id and expression and gets a name
      that was not in use; the names are pairwise distinct, and exactly they
      are added to the used names. */
  lemma {:induction false} CheckConstraintsShape(used: set<string>, srcs: seq<Src.CheckConstraint>, pick: (string, set<string>) -> string)
    requires Disambiguates(pick)
    ensures var r := CvtCheckConstraints(used, srcs, pick);
      && (forall i :: 0 <= i < |srcs| ==>
            r.0[i].id == srcs[i].id && r.0[i].expr == srcs[i].expr && r.0[i].exprId == "" && r.0[i].name !in used)
      && (forall i, j :: 0 <= i < j < |srcs| ==> r.0[i].name != r.0[j].name)
      && r.1 == used + Names(r.0)
    decreases |srcs|
  {
    if srcs != [] {
      var name := Register(used, Sanitize(srcs[0].name), pick);
      var rest := CvtCheckConstraints(used + {name}, srcs[1..], pick);
      CheckConstraintsShape(used + {name}, srcs[1..], pick);
      var cs := [CheckConstraint(srcs[0].id, name, srcs[0].expr, "")] + rest.0;
      assert CvtCheckConstraints(used, srcs, pick) == (cs, rest.1);
      assert cs[1..] == rest.0;
      forall i | 0 < i < |srcs|
        ensures cs[i].id == srcs[i].id && cs[i].expr == srcs[i].expr && cs[i].exprId == "" && cs[i].name !in used
      {
        assert cs[i] == rest.0[i - 1] && srcs[i] == srcs[1..][i - 1];
      }
      forall i, j | 0 <= i < j < |srcs| ensures cs[i].name != cs[j].name {
        assert cs[j] == rest.0[j - 1];
        if i > 0 {
          assert cs[i] == rest.0[i - 1];
        }
      }
    }
  }

  /** One step of the conversion, taken at position i: the constraint there is
      converted against the used names, and the rest against the grown set. */
  lemma CvtCheckConstraintsStep(used: set<string>, srcs: seq<Src.CheckConstraint>, i: nat, pick: (string, set<string>) -> string)
    requires Disambiguates(pick) && i < |srcs|
    ensures var name := Register(used, Sanitize(srcs[i].name), pick);
            var rest := CvtCheckConstraints(used + {name}, srcs[i + 1..], pick);
            CvtCheckConstraints(used, srcs[i..], pick)
            == ([CheckConstraint(srcs[i].id, name, srcs[i].expr, "")] + rest.0, rest.1)
  {
    assert srcs[i..][0] == srcs[i] && srcs[i..][1..] == srcs[i + 1..];
  }

  /** Sanitized names that collide neither with used names nor with each other
      are kept as they are. */
  lemma {:induction false} CheckNamesKeptWithoutCollision(used: set<string>, srcs: seq<Src.CheckConstraint>, pick: (string, set<string>) -> string)
    requires Disambiguates(pick)
    requires forall i :: 0 <= i < |srcs| ==> Sanitize(srcs[i].name) !in used
    requires forall i, j :: 0 <= i < j < |srcs| ==> Sanitize(srcs[i].name) != Sanitize(srcs[j].name)
    ensures var cs := CvtCheckConstraints(used, srcs, pick).0;
            forall i :: 0 <= i < |cs| ==> cs[i].name == Sanitize(srcs[i].name)
    decreases |srcs|
  {
    if srcs != [] {
      var name := Sanitize(srcs[0].name);
      var tail := srcs[1..];
      forall i | 0 <= i < |tail| ensures Sanitize(tail[i].name) !in used + {name} {
        assert tail[i] == srcs[i + 1];
      }
      forall i, j | 0 <= i < j < |tail| ensures Sanitize(tail[i].name) != Sanitize(tail[j].name) {
        assert tail[i] == srcs[i + 1] && tail[j] == srcs[j + 1];
      }
      CheckNamesKeptWithoutCollision(used + {name}, tail, pick);
    }
  }

  /** The check-constraint test: with no names in use, `check_1` and `check_2`
      are kept, `@invalid_name` becomes `Ainvalid_name`; ids and expressions are kept. */
  lemma CheckConstraintExample(pick: (string, set<string>) -> string)
    requires Disambiguates(pick)
    ensures CvtCheckConstraints({}, [Src.CheckConstraint("cc1", "check_1", "age > 0"),
                                     Src.CheckConstraint("cc2", "check_2", "age < 99"),
                                     Src.CheckConstraint("cc3", "@invalid_name", "age != 0")], pick).0
         == [CheckConstraint("cc1", "check_1", "age > 0", ""),
             CheckConstraint("cc2", "check_2", "age < 99", ""),
             CheckConstraint("cc3", "Ainvalid_name", "age != 0", "")]
  {
    var srcs := [Src.CheckConstraint("cc1", "check_1", "age > 0"),
                 Src.CheckConstraint("cc2", "check_2", "age < 99"),
                 Src.CheckConstraint("cc3", "@invalid_name", "age != 0")];
    SanitizeExamples();
    assert Sanitize(srcs[0].name) == "check_1" && Sanitize(srcs[1].name) == "check_2";
    assert Sanitize(srcs[2].name) == "Ainvalid_name";
    CheckNamesKeptWithoutCollision({}, srcs, pick);
    CheckConstraintsShape({}, srcs, pick);
    var cs := CvtCheckConstraints({}, srcs, pick).0;
    assert cs[0] == CheckConstraint("cc1", "check_1", "age > 0", "");
    assert cs[1] == CheckConstraint("cc2", "check_2", "age < 99", "");
    assert cs[2] == CheckConstraint("cc3", "Ainvalid_name", "age != 0", "");
  }
}
