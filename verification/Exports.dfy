/** Redacted evidence exports: which paths may be redacted, and what an export keeps. */
module Exports {
  import opened Outcomes
  import opened Utf16
  import Decimal
  import opened JsonValue
  import opened Ordering
  import opened Redaction

  const REVIEWER: Text := Ascii("reviewer")
  const CLAIM: Text := Ascii("claim")
  const SUPPORTS: Text := Ascii("supports")
  const DOES_NOT_PROVE: Text := Ascii("doesNotProve")
  const WORK_SPLIT: Text := Ascii("workSplit")
  const EVIDENCE_DIGEST: Text := Ascii("evidenceDigest")
  const REVIEWER_ID: Text := Ascii("reviewerId")
  const CONFLICT_DETAILS: Text := Ascii("conflictDetails")
  const STATEMENT: Text := Ascii("statement")
  const SCOPE: Text := Ascii("scope")
  const DESCRIPTION: Text := Ascii("description")

  predicate RedactableRoot(k: Text)
  {
    k == REVIEWER || k == CLAIM || k == SUPPORTS || k == DOES_NOT_PROVE || k == WORK_SPLIT
  }

  /** `assertExportRedactionPath` */
  predicate AllowedPath(path: seq<Segment>)
  {
    && |path| == 2
    && (|| (path[0] == Name(REVIEWER) && (path[1] == Name(REVIEWER_ID) || path[1] == Name(CONFLICT_DETAILS)))
        || (path[0] == Name(CLAIM) && (path[1] == Name(STATEMENT) || path[1] == Name(SCOPE)))
        || ((path[0] == Name(SUPPORTS) || path[0] == Name(DOES_NOT_PROVE)) && path[1].Index?)
        || (path[0] == Name(WORK_SPLIT) && path[1] == Name(DESCRIPTION)))
  }

  /** The evidence schema, and `digestCanonicalJson` of record material and of export material. */
  datatype ExportHost = ExportHost(
    schema: Json -> bool, digest: map<Text, Json> -> Text, exportDigest: (Text, Json, seq<Text>) -> Text)

  datatype EvidenceExport = EvidenceExport(
    sourceDigest: Text, evidence: Json, redactedPaths: seq<Text>, exportDigest: Text)

  datatype ExportError = SchemaInvalid | DigestInvalid | PathForbidden | Unredacted(error: RedactionError) | RedactionInvalid

  function WithoutDigest(members: map<Text, Json>): map<Text, Json> { members - {EVIDENCE_DIGEST} }

  /** `verifyEvidenceDigest` on the JSON form of a record. */
  predicate DigestVerifies(h: ExportHost, record: Json)
  {
    && record.Object? && EVIDENCE_DIGEST in record.members
    && record.members[EVIDENCE_DIGEST] == String(h.digest(WithoutDigest(record.members)))
  }

  /** `rule.path.map(String).join(".")` */
  function PathText(path: seq<Segment>): Text
  {
    if path == [] then []
    else if |path| == 1 then KeyText(path[0])
    else KeyText(path[0]) + Ascii(".") + PathText(path[1..])
  }

  function Same(t: Text): Text { t }

  function RedactedPaths(rules: seq<Rule>): seq<Text>
  {
    Sort(Mapped(rules, (r: Rule) => PathText(r.path)), TextBefore(Same))
  }

  /** The record with its digest taken anew. */
  function Redigested(h: ExportHost, members: map<Text, Json>): Json
  {
    Object(WithoutDigest(members)[EVIDENCE_DIGEST := String(h.digest(WithoutDigest(members)))])
  }

  /** `createEvidenceExport`, from the JSON form of the source record. */
  method CreateEvidenceExport(h: ExportHost, source: Json, rules: seq<Rule>) returns (r: Result<EvidenceExport,
      ExportError>)
    ensures r == Exported(h, source, rules)
  {
    hide RedactAll, AllowedPath, RedactedPaths;
    if !h.schema(source) { return Err(SchemaInvalid); }
    if !DigestVerifies(h, source) { return Err(DigestInvalid); }
    for i := 0 to |rules|
      invariant forall j :: 0 <= j < i ==> AllowedPath(rules[j].path)
    {
      if !AllowedPath(rules[i].path) { return Err(PathForbidden); }
    }
    var redacted := RedactAll(source, rules);
    if redacted.Err? { return Err(Unredacted(redacted.error)); }
    if !redacted.value.Object? { return Err(RedactionInvalid); }
    var evidence := Redigested(h, redacted.value.members);
    if !h.schema(evidence) { return Err(SchemaInvalid); }
    var sourceDigest := source.members[EVIDENCE_DIGEST].text;
    var paths := RedactedPaths(rules);
    return Ok(EvidenceExport(sourceDigest, evidence, paths, h.exportDigest(sourceDigest, evidence, paths)));
  }

  function Exported(h: ExportHost, source: Json, rules: seq<Rule>): Result<EvidenceExport, ExportError>
  {
    if !h.schema(source) then Err(SchemaInvalid)
    else if !DigestVerifies(h, source) then Err(DigestInvalid)
    else if exists i :: 0 <= i < |rules| && !AllowedPath(rules[i].path) then Err(PathForbidden)
    else match RedactAll(source, rules)
      case Err(e) => Err(Unredacted(e))
      case Ok(redacted) =>
        if !redacted.Object? then Err(RedactionInvalid) else
          var evidence, paths := Redigested(h, redacted.members), RedactedPaths(rules);
          if !h.schema(evidence) then Err(SchemaInvalid) else
            var digest := source.members[EVIDENCE_DIGEST].text;
            Ok(EvidenceExport(digest, evidence, paths, h.exportDigest(digest, evidence, paths)))
  }

  // ---------- what an export keeps ----------

  /** A position that an allowed rule can denote. */
  predicate RedactablePosition(p: Position)
  {
    && |p| == 2
    && (|| (p[0] == Field(REVIEWER) && (p[1] == Field(REVIEWER_ID) || p[1] == Field(CONFLICT_DETAILS)))
        || (p[0] == Field(CLAIM) && (p[1] == Field(STATEMENT) || p[1] == Field(SCOPE)))
        || p[0] == Field(SUPPORTS) || p[0] == Field(DOES_NOT_PROVE)
        || (p[0] == Field(WORK_SPLIT) && p[1] == Field(DESCRIPTION)))
  }

  lemma AllowedResolves(v: Json, path: seq<Segment>)
    requires AllowedPath(path) && Resolve(v, path).Some?
    ensures RedactablePosition(Resolve(v, path).value)
  {
    ResolveTwo(v, path);
  }

  lemma ResolveTwo(v: Json, path: seq<Segment>)
    requires |path| == 2 && Resolve(v, path).Some?
    ensures StepOf(v, path[0]).Some? && StepOf(Child(v, StepOf(v, path[0]).value), path[1]).Some?
    ensures Resolve(v, path).value
            == [StepOf(v, path[0]).value, StepOf(Child(v, StepOf(v, path[0]).value), path[1]).value]
  {
    var c := Child(v, StepOf(v, path[0]).value);
    assert path[1..][0] == path[1] && path[1..][1..] == [];
    var d := Child(c, StepOf(c, path[1]).value);
    assert Resolve(d, path[1..][1..]) == Some([]);
    assert [StepOf(c, path[1]).value] + [] == [StepOf(c, path[1]).value];
    assert Resolve(c, path[1..]) == Some([StepOf(c, path[1]).value]);
  }

  /** Allowed rules fail only for a path that is not there. */
  lemma AllowedRulesApply(v: Json, rules: seq<Rule>)
    requires forall i :: 0 <= i < |rules| ==> AllowedPath(rules[i].path)
    ensures RedactAll(v, rules).Ok? <==> forall i :: 0 <= i < |rules| ==> Resolve(v, rules[i].path).Some?
  {
    hide RedactAll, Resolve, AllowedPath, RedactablePosition, Overlay, EditsOf;
    RedactionIsOverlay(v, rules);
    forall i | 0 <= i < |rules| ensures Admissible(v, rules, i) <==> Resolve(v, rules[i].path).Some? {
      AllowedNotEmpty(rules[i].path);
      forall j | 0 <= j < |rules| && Resolve(v, rules[j].path).Some? ensures |Resolve(v, rules[j].path).value| == 2 {
        AllowedLength(v, rules[j].path);
      }
    }
  }

  lemma AllowedNotEmpty(path: seq<Segment>)
    ensures AllowedPath(path) ==> path != []
  {
  }

  lemma AllowedLength(v: Json, path: seq<Segment>)
    requires AllowedPath(path) && Resolve(v, path).Some?
    ensures |Resolve(v, path).value| == 2
  {
    AllowedResolves(v, path);
  }

  /** Everything outside the redactable positions survives allowed redaction. */
  lemma AllowedRedactionKeeps(v: Json, rules: seq<Rule>, q: Position)
    requires forall i :: 0 <= i < |rules| ==> AllowedPath(rules[i].path)
    requires RedactAll(v, rules).Ok? && At(v, q).Some?
    requires forall p :: RedactablePosition(p) ==> !(p <= q) && !(q <= p)
    ensures At(RedactAll(v, rules).value, q) == At(v, q)
  {
    hide RedactAll, Resolve, AllowedPath, RedactablePosition, At;
    forall r | r in rules && Resolve(v, r.path).Some?
      ensures !(Resolve(v, r.path).value <= q) && !(q <= Resolve(v, r.path).value)
    {
      AllowedResolves(v, r.path);
    }
    RestIsUntouched(v, rules, q);
  }

  lemma FieldAt(v: Json, k: Text)
    ensures At(v, [Field(k)]) == if v.Object? && k in v.members then Some(v.members[k]) else None
  {
    assert [Field(k)][1..] == [];
  }

  lemma FieldsAt(v: Json, k: Text, j: Text)
    requires v.Object? && k in v.members
    ensures At(v, [Field(k), Field(j)])
            == if v.members[k].Object? && j in v.members[k].members then Some(v.members[k].members[j]) else None
  {
    assert [Field(k), Field(j)][1..] == [Field(j)];
    FieldAt(v.members[k], j);
  }

  predicate IsReferenceField(k: Text)
  {
    k == Ascii("artifactRefs") || k == Ascii("eventRefs") || k == Ascii("approvalRefs") || k == Ascii("verificationRefs")
    || k == Ascii("verificationExceptionRefs")
  }

  /** Redaction of an object below its root gives an object with the same keys. */
  lemma RedactedKeys(v: Json, rules: seq<Rule>)
    requires v.Object? && RedactAll(v, rules).Ok?
    requires forall i :: 0 <= i < |rules| ==> AllowedPath(rules[i].path)
    ensures RedactAll(v, rules).value.Object? && RedactAll(v, rules).value.members.Keys == v.members.Keys
  {
    hide RedactAll, Resolve, EditsOf, AllowedPath;
    RedactionIsOverlay(v, rules);
    var root: Position := [];
    EditsFromRules(v, rules, root);
    forall r | r in rules && Resolve(v, r.path).Some? ensures |Resolve(v, r.path).value| == 2 {
      AllowedLength(v, r.path);
    }
  }

  /**
   An export keeps every field outside the allow-list, so the artifact, event, approval and verification
   references are those of the source; its evidence carries a verifying digest of its own.
   */
  lemma ExportKeepsReferences(h: ExportHost, source: Json, rules: seq<Rule>)
    requires Exported(h, source, rules).Ok?
    ensures var e := Exported(h, source, rules).value.evidence;
            && e.Object? && e.members.Keys == source.members.Keys && DigestVerifies(h, e)
            && (forall k :: k in source.members && k != EVIDENCE_DIGEST && !RedactableRoot(k) ==>
                  e.members[k] == source.members[k])
            && (forall k :: IsReferenceField(k) && k in source.members ==> e.members[k] == source.members[k])
  {
    hide RedactAll, AllowedPath, RedactedPaths, Resolve, At;
    RedactedKeys(source, rules);
    var redacted := RedactAll(source, rules).value;
    var e := Exported(h, source, rules).value.evidence;
    assert e == Redigested(h, redacted.members);
    assert WithoutDigest(e.members) == WithoutDigest(redacted.members);
    forall k | k in source.members && !RedactableRoot(k) ensures redacted.members[k] == source.members[k] {
      FieldAt(source, k);
      FieldAt(redacted, k);
      forall p | RedactablePosition(p) ensures !(p <= [Field(k)]) && !([Field(k)] <= p) {
        assert [Field(k)][0] == Field(k);
      }
      AllowedRedactionKeeps(source, rules, [Field(k)]);
    }
    ReferenceNames();
  }

  /** The reference fields are not among the redactable roots. */
  lemma ReferenceNames()
    ensures forall k :: IsReferenceField(k) ==> !RedactableRoot(k) && k != EVIDENCE_DIGEST
  {
    assert Ascii("artifactRefs")[0] != DOES_NOT_PROVE[0] && Ascii("approvalRefs")[0] != DOES_NOT_PROVE[0];
    assert Ascii("eventRefs")[0] != WORK_SPLIT[0];
  }

  /** Inside the redactable roots, only the listed fields can change. */
  lemma ExportKeepsOtherFields(h: ExportHost, source: Json, rules: seq<Rule>, k: Text, j: Text)
    requires Exported(h, source, rules).Ok?
    requires k in source.members && k != EVIDENCE_DIGEST && !RedactablePosition([Field(k), Field(j)])
    requires source.members[k].Object? && j in source.members[k].members
    ensures var e := Exported(h, source, rules).value.evidence;
            k in e.members && e.members[k].Object? && j in e.members[k].members
                && e.members[k].members[j] == source.members[k].members[j]
  {
    hide RedactAll, AllowedPath, RedactedPaths, Resolve, At, RedactablePosition;
    RedactedKeys(source, rules);
    var redacted := RedactAll(source, rules).value;
    var q := [Field(k), Field(j)];
    FieldsAt(source, k, j);
    FieldsAt(redacted, k, j);
    forall p | RedactablePosition(p) ensures !(p <= q) && !(q <= p) {
      RedactableIsTwo(p);
      assert p <= q ==> p == q;
    }
    AllowedRedactionKeeps(source, rules, q);
  }

  lemma RedactableIsTwo(p: Position)
    ensures RedactablePosition(p) ==> |p| == 2
  {
  }

  // ---------- what an export says of its source ----------

  /** No text stands before a smaller one. */
  ghost predicate Sorted(s: seq<Text>) { forall i, j :: 0 <= i < j < |s| ==> !Less(s[j], s[i]) }

  lemma SameOrder(a: Text, b: Text)
    ensures TextBefore(Same)(a, b) == Less(a, b)
  {
    var key: Text -> Text := Same;
    assert key(a) == a && key(b) == b;
  }

  lemma {:induction false} InsertSorts(x: Text, s: seq<Text>)
    requires Sorted(s)
    ensures Sorted(Insert(x, s, TextBefore(Same)))
    decreases |s|
  {
    if s != [] {
      SameOrder(x, s[0]);
      if Less(x, s[0]) {
        assert Insert(x, s, TextBefore(Same)) == [x] + s;
        forall j | 0 <= j < |s| ensures !Less(s[j], x) {
          if Less(s[j], x) {
            LessTransitive(s[j], x, s[0]);
            LessIrreflexive(s[0]);
          }
        }
      } else {
        InsertSorts(x, s[1..]);
        InsertMembers(x, s[1..], TextBefore(Same));
        var t := Insert(x, s[1..], TextBefore(Same));
        assert Insert(x, s, TextBefore(Same)) == [s[0]] + t;
        forall j | 0 <= j < |t| ensures !Less(t[j], s[0]) {
          assert t[j] in t;
          if t[j] != x {
            var k :| 0 <= k < |s[1..]| && s[1..][k] == t[j];
            assert s[k + 1] == t[j];
          }
        }
      }
    }
  }

  lemma {:induction false} SortSorts(xs: seq<Text>)
    ensures Sorted(Sort(xs, TextBefore(Same)))
    decreases |xs|
  {
    if xs != [] {
      SortSorts(xs[1..]);
      InsertSorts(xs[0], Sort(xs[1..], TextBefore(Same)));
    }
  }

  /**
   An export is made exactly for a valid record with a verifying digest whose allowed paths are all there, if the redacted
   record is valid again. It names the digest of the source and, in code-unit order, the path of every rule, and its own
   digest is over these and the redacted record.
   */
  lemma ExportIsOfSource(h: ExportHost, source: Json, rules: seq<Rule>)
    ensures
      Exported(h, source, rules).Ok? <==>
      && h.schema(source) && DigestVerifies(h, source)
      && (forall r :: r in rules ==> AllowedPath(r.path) && Resolve(source, r.path).Some?)
      && RedactAll(source, rules).Ok? && RedactAll(source, rules).value.Object?
      && h.schema(Redigested(h, RedactAll(source, rules).value.members))
    ensures
      Exported(h, source, rules).Ok? ==>
        var e := Exported(h, source, rules).value;
        && source.members[Ascii("evidenceDigest")] == String(e.sourceDigest)
        && e.sourceDigest == h.digest(source.members - {Ascii("evidenceDigest")})
        && multiset(e.redactedPaths) == multiset(seq(|rules|, i requires 0 <= i < |rules| => PathText(rules[i].path)))
        && Sorted(e.redactedPaths) && e.exportDigest == h.exportDigest(e.sourceDigest, e.evidence, e.redactedPaths)
  {
    hide RedactAll, Resolve, AllowedPath, PathText, Sort, Ascii;
    if forall i :: 0 <= i < |rules| ==> AllowedPath(rules[i].path) { AllowedRulesApply(source, rules); }
    var texts := Mapped(rules, (r: Rule) => PathText(r.path));
    SortPermutes(texts, TextBefore(Same));
    SortSorts(texts);
    assert texts == seq(|rules|, i requires 0 <= i < |rules| => PathText(rules[i].path));
  }

  /** Every redactable field and array item of a record can be named by an allowed path. */
  lemma RedactableIsAllowed(v: Json, p: Position)
    requires RedactablePosition(p) && At(v, p).Some?
    requires p[0] == Field(SUPPORTS) || p[0] == Field(DOES_NOT_PROVE) ==> p[1].Item?
    ensures exists path :: AllowedPath(path) && Resolve(v, path) == Some(p)
  {
    hide Ascii;
    var second := if p[1].Field? then Name(p[1].key) else Index(p[1].n);
    var path := [Name(p[0].key), second];
    assert p[1..][1..] == [] && p[1..][0] == p[1];
    var c := Child(v, p[0]);
    assert StepOf(v, path[0]) == Some(p[0]) && StepOf(c, path[1]) == Some(p[1]);
    assert path[1..] == [second] && [second][1..] == [];
    assert Resolve(c, [second]) == Some([p[1]] + []);
    assert [p[0]] + [p[1]] == p && [p[1]] + [] == [p[1]];
    assert Resolve(v, path) == Some([p[0]] + [p[1]]);
    assert AllowedPath(path);
  }

  /** The fields that may be redacted, by name. */
  lemma AllowedFields(i: int)
    ensures AllowedPath([Name(Ascii("reviewer")), Name(Ascii("reviewerId"))])
    ensures AllowedPath([Name(Ascii("reviewer")), Name(Ascii("conflictDetails"))])
    ensures AllowedPath([Name(Ascii("claim")), Name(Ascii("statement"))]) && AllowedPath([Name(Ascii("claim")), Name(Ascii("scope"))])
    ensures AllowedPath([Name(Ascii("supports")), Index(i)]) && AllowedPath([Name(Ascii("doesNotProve")), Index(i)])
    ensures AllowedPath([Name(Ascii("workSplit")), Name(Ascii("description"))])
    ensures REDACTED == Ascii("[REDACTED]")
    ensures forall x, y :: PathText([Name(x), Name(y)]) == x + Ascii(".") + y
    ensures forall x :: PathText([Name(x), Index(i)]) == x + Ascii(".") + Decimal.IntegerText(i)
  {
    hide Decimal.IntegerText, Ascii;
    forall x, s: Segment ensures PathText([Name(x), s]) == x + Ascii(".") + KeyText(s) { assert [Name(x), s][1..] == [s]; }
    RedactedText();
  }

  lemma RedactedText()
    ensures REDACTED == Ascii("[REDACTED]")
  {
  }
}
