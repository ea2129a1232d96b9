/** The hand-written `Serialize` for `ChangelogCommit`: one commit becomes a
    struct record named "Commit" with ten named fields in a fixed order,
    written through a struct writer that may reject any step. */
module CommitSerde {
  import opened Wrappers
  import opened Commits
  import opened Release
  import opened Serde

  /** The struct name passed to `serialize_struct`. */
  const StructName: string := "Commit"

  /** The field count announced to `serialize_struct`. */
  const LengthHint: nat := 10

  /** The external contract: the record's keys, in the order they are written. */
  const FieldNames: seq<string> :=
    ["id", "author", "signature", "type", "date", "scope", "summary", "body", "breaking_change", "footer"]

  /** An `Option<String>` field: `None` serializes as null, `Some(s)` as the string. */
  function OptionalStr(o: Option<string>): Value
  {
    match o
    case None => Null
    case Some(s) => Str(s)
  }

  /** The footer list: every footer projected through `ChangelogFooter::from`,
      in the order of the commit message. */
  function FooterValues(footers: seq<Footer>): (vs: seq<Value>)
    ensures |vs| == |footers|
    ensures forall i :: 0 <= i < |footers| ==> vs[i] == FooterRecord(FromFooter(footers[i]))
  {
    if |footers| == 0 then []
    else [FooterRecord(FromFooter(footers[0]))] + FooterValues(footers[1..])
  }

  /** The fields `serialize` writes, in the order it writes them. */
  function Record(c: ChangelogCommit): seq<Field>
  {
    var cc := c.commit.conventional;
    [ Field("id", Str(c.commit.oid)),
      Field("author", OptionalStr(c.authorUsername)),
      Field("signature", Str(c.commit.author)),
      Field("type", Str(c.changelogTitle)),
      Field("date", Date(c.commit.date)),
      Field("scope", OptionalStr(cc.scope)),
      Field("summary", Str(cc.summary)),
      Field("body", OptionalStr(cc.body)),
      Field("breaking_change", Bool(cc.isBreakingChange)),
      Field("footer", List(FooterValues(cc.footers))) ]
  }

  /** `ChangelogCommit::serialize` against the writer `w`. */
  function Serialize<O, E>(c: ChangelogCommit, w: StructWriter<O, E>): Run<O, E>
  {
    WriteStruct(w, StructName, LengthHint, Record(c))
  }

  /** The record has exactly the announced ten fields, keyed by the contract's
      names in the contract's order, with no key repeated. */
  lemma RecordShape(c: ChangelogCommit)
    ensures |Record(c)| == LengthHint
    ensures Keys(Record(c)) == FieldNames
    ensures DistinctKeys(Record(c))
  {
  }

  /** The required scalar fields are the commit's values, only renamed:
      `oid` as id, the signature as signature, the changelog title as type,
      the date as date and the summary as summary. */
  lemma RecordCopies(c: ChangelogCommit)
    ensures Lookup(Record(c), "id") == Some(Str(c.commit.oid))
    ensures Lookup(Record(c), "signature") == Some(Str(c.commit.author))
    ensures Lookup(Record(c), "type") == Some(Str(c.changelogTitle))
    ensures Lookup(Record(c), "date") == Some(Date(c.commit.date))
    ensures Lookup(Record(c), "summary") == Some(Str(c.commit.conventional.summary))
  {
    RecordShape(c);
    var r := Record(c);
    LookupAt(r, 0);
    LookupAt(r, 2);
    LookupAt(r, 3);
    LookupAt(r, 4);
    LookupAt(r, 6);
  }

  /** The optional fields author, scope and body are present whether or not
      their value is: an absent value reads as null, a present one as its string. */
  lemma OptionalFields(c: ChangelogCommit)
    ensures c.authorUsername.None? ==> Lookup(Record(c), "author") == Some(Null)
    ensures c.authorUsername.Some? ==> Lookup(Record(c), "author") == Some(Str(c.authorUsername.value))
    ensures c.commit.conventional.scope.None? ==> Lookup(Record(c), "scope") == Some(Null)
    ensures c.commit.conventional.scope.Some? ==> Lookup(Record(c), "scope") == Some(Str(c.commit.conventional.scope.value))
    ensures c.commit.conventional.body.None? ==> Lookup(Record(c), "body") == Some(Null)
    ensures c.commit.conventional.body.Some? ==> Lookup(Record(c), "body") == Some(Str(c.commit.conventional.body.value))
  {
    RecordShape(c);
    var r := Record(c);
    LookupAt(r, 1);
    LookupAt(r, 5);
    LookupAt(r, 7);
  }

  /** breaking_change is always present, as the commit's flag, false included. */
  lemma BreakingChangePresent(c: ChangelogCommit)
    ensures Lookup(Record(c), "breaking_change") == Some(Bool(c.commit.conventional.isBreakingChange))
  {
    RecordShape(c);
    LookupAt(Record(c), 8);
  }

  /** footer is always present as a list with one projected footer per
      commit footer, in the same order; no footers give an empty list. */
  lemma FooterField(c: ChangelogCommit)
    ensures Lookup(Record(c), "footer").Some?
    ensures Lookup(Record(c), "footer").value.List?
    ensures var items := Lookup(Record(c), "footer").value.items;
      && |items| == |c.commit.conventional.footers|
      && forall i :: 0 <= i < |items| ==> items[i] == FooterRecord(FromFooter(c.commit.conventional.footers[i]))
    ensures c.commit.conventional.footers == [] ==> Lookup(Record(c), "footer") == Some(List([]))
  {
    RecordShape(c);
    LookupAt(Record(c), 9);
  }

  /** Two commits whose serialized views agree on every field the record
      draws from; footers are compared through their projections, since
      `ChangelogFooter::from` need not keep everything a footer holds. */
  predicate SameView(a: ChangelogCommit, b: ChangelogCommit)
  {
    && a.commit.oid == b.commit.oid
    && a.authorUsername == b.authorUsername
    && a.commit.author == b.commit.author
    && a.changelogTitle == b.changelogTitle
    && a.commit.date == b.commit.date
    && a.commit.conventional.scope == b.commit.conventional.scope
    && a.commit.conventional.summary == b.commit.conventional.summary
    && a.commit.conventional.body == b.commit.conventional.body
    && a.commit.conventional.isBreakingChange == b.commit.conventional.isBreakingChange
    && FooterValues(a.commit.conventional.footers) == FooterValues(b.commit.conventional.footers)
  }

  /** The record loses nothing it draws from and reads nothing else: two
      commits give the same record exactly when they agree on those ten
      sources (the commit type, for one, plays no part). */
  lemma RecordDeterminesView(a: ChangelogCommit, b: ChangelogCommit)
    ensures Record(a) == Record(b) <==> SameView(a, b)
  {
  }

  /** The fields' outcomes: if the writer rejects the struct opening, that
      error is returned and nothing is written; otherwise the fields are
      written in order, the first rejected field's error is returned
      unchanged with only the fields before it written, and `end` is
      reached, with its result returned, exactly when all ten are accepted. */
  lemma SerializeShortCircuit<O, E>(c: ChangelogCommit, w: StructWriter<O, E>)
    ensures w.open(StructName, LengthHint).Fail? ==>
      Serialize(c, w) == Run(Err(w.open(StructName, LengthHint).error), [], false)
    ensures w.open(StructName, LengthHint).Pass? ==>
      var run, r := Serialize(c, w), Record(c);
      && (run.ended <==> AcceptedUpTo(w, r, |r|))
      && (run.ended ==> run.written == r && run.result == w.end(r))
      && (!run.ended ==>
            && |run.written| < |r|
            && run.written == r[..|run.written|]
            && AcceptedUpTo(w, r, |run.written|)
            && run.result.Err?
            && Verdict(w, r, |run.written|) == Fail(run.result.error))
  {
    WriteFieldsShortCircuit(w, Record(c));
  }

  /** Serialization succeeds exactly when the writer accepts the opening,
      every one of the ten fields and the closing; the value returned is then
      the one the writer produced from the full record. */
  lemma SerializeSucceeds<O, E>(c: ChangelogCommit, w: StructWriter<O, E>)
    ensures Serialize(c, w).result.Ok? <==>
      && w.open(StructName, LengthHint).Pass?
      && AcceptedUpTo(w, Record(c), |Record(c)|)
      && w.end(Record(c)).Ok?
    ensures Serialize(c, w).result.Ok? ==>
      Serialize(c, w).written == Record(c) && Serialize(c, w).result == w.end(Record(c))
  {
    SerializeShortCircuit(c, w);
  }

  /** A writer that accepts every step and returns the fields it was given. */
  function Accepting(): StructWriter<seq<Field>, string>
  {
    StructWriter((name, len) => Pass, (written, key, value) => Pass, written => Ok(written))
  }

  /** The commit of the serializer's unit test, dated `now`. */
  function TestCommit(now: NaiveDateTime): ChangelogCommit
  {
    ChangelogCommit(
      "BugFix",
      Some("Jm Doudou"),
      Commit(
        "1234567890",
        ConventionalCommit(
          BugFix,
          Some("parser"),
          "fix parser implementation",
          Some("the body"),
          [Footer("token", "content")],
          false),
        "Jean Michel Doudou",
        now))
  }

  /** The unit test's commit serializes successfully through a writer that
      never fails, with its id, type, scope, summary, breaking flag and
      single footer as given. */
  lemma ShouldSerializeCommit(now: NaiveDateTime)
    ensures Serialize(TestCommit(now), Accepting()).result.Ok?
    ensures Serialize(TestCommit(now), Accepting()).result.value == Record(TestCommit(now))
    ensures Lookup(Record(TestCommit(now)), "id") == Some(Str("1234567890"))
    ensures Lookup(Record(TestCommit(now)), "type") == Some(Str("BugFix"))
    ensures Lookup(Record(TestCommit(now)), "scope") == Some(Str("parser"))
    ensures Lookup(Record(TestCommit(now)), "summary") == Some(Str("fix parser implementation"))
    ensures Lookup(Record(TestCommit(now)), "breaking_change") == Some(Bool(false))
    ensures Lookup(Record(TestCommit(now)), "footer") == Some(List([FooterRecord(ChangelogFooter("token", "content"))]))
  {
    var c := TestCommit(now);
    SerializeSucceeds(c, Accepting());
    RecordCopies(c);
    OptionalFields(c);
    BreakingChangePresent(c);
    FooterField(c);
    var items := Lookup(Record(c), "footer").value.items;
    assert items[0] == FooterRecord(ChangelogFooter("token", "content"));
    assert items == [FooterRecord(ChangelogFooter("token", "content"))];
  }
}
