/** The part of serde's data model that a hand-written `Serialize` for a
    struct goes through: values, named fields, and a struct writer whose
    `serialize_struct`, `serialize_field` and `end` steps may each fail.
    The encoder behind the writer (TOML, JSON, ...) is abstract: any
    function of the fields written so far may accept or reject a step.
    The two leaf value types, a commit date and a changelog footer, come
    from `Commits` and `Release`; nothing else of them is used here. */
module Serde {
  import opened Wrappers
  import opened Commits
  import opened Release

  /** A serialized value. Dates and changelog footers are leaves here:
      their own encodings are not part of this model. */
  datatype Value =
    | Null
    | Bool(b: bool)
    | Str(s: string)
    | Date(date: NaiveDateTime)
    | FooterRecord(footer: ChangelogFooter)
    | List(items: seq<Value>)

  /** One named field of a struct record. */
  datatype Field = Field(key: string, value: Value)

  /** The keys of a record, in order. */
  function Keys(fields: seq<Field>): seq<string>
  {
    seq(|fields|, i requires 0 <= i < |fields| => fields[i].key)
  }

  /** No key occurs twice in the record. */
  predicate DistinctKeys(fields: seq<Field>)
  {
    forall i, j :: 0 <= i < j < |fields| ==> fields[i].key != fields[j].key
  }

  /** Reads the fields passed to the writer by key: the value of the first
      field carrying `key`, if there is one. This is the field sequence
      handed to the encoder, not an encoded document. */
  function Lookup(fields: seq<Field>, key: string): Option<Value>
  {
    if |fields| == 0 then None
    else if fields[0].key == key then Some(fields[0].value)
    else Lookup(fields[1..], key)
  }

  /** In a record without repeated keys, reading field i's key yields field i's value. */
  lemma {:induction false} LookupAt(fields: seq<Field>, i: int)
    requires DistinctKeys(fields)
    requires 0 <= i < |fields|
    ensures Lookup(fields, fields[i].key) == Some(fields[i].value)
  {
    if i > 0 {
      assert fields[0].key != fields[i].key;
      assert fields[1..][i - 1] == fields[i];
      assert DistinctKeys(fields[1..]) by {
        forall a, b | 0 <= a < b < |fields| - 1
          ensures fields[1..][a].key != fields[1..][b].key
        {
          assert fields[1..][a] == fields[a + 1] && fields[1..][b] == fields[b + 1];
        }
      }
      LookupAt(fields[1..], i - 1);
    }
  }

  /** A serializer seen through the three struct steps:
      - `open(name, len)` is `serialize_struct(name, len)`;
      - `field(written, key, value)` is `serialize_field(key, value)` after
        the fields `written` have been accepted;
      - `end(written)` is `end()` after all of `written` was accepted. */
  datatype StructWriter<O, E> = StructWriter(
    open: (string, nat) -> Outcome<E>,
    field: (seq<Field>, string, Value) -> Outcome<E>,
    end: seq<Field> -> Result<O, E>)

  /** What a struct serialization produced: the result handed back to the
      caller, the fields the writer accepted, and whether `end` was called. */
  datatype Run<O, E> = Run(result: Result<O, E>, written: seq<Field>, ended: bool)

  /** The writer's answer to field k of a record, once fields 0..k-1 are written. */
  function Verdict<O, E>(w: StructWriter<O, E>, fields: seq<Field>, k: nat): Outcome<E>
    requires k < |fields|
  {
    w.field(fields[..k], fields[k].key, fields[k].value)
  }

  /** The writer accepts each of the first k fields of the record. */
  predicate AcceptedUpTo<O, E>(w: StructWriter<O, E>, fields: seq<Field>, k: nat)
    requires k <= |fields|
  {
    forall j :: 0 <= j < k ==> Verdict(w, fields, j).Pass?
  }

  /** Writes `pending` after `written`, one field at a time; the first
      rejected field stops the run with that error, and `end` is called
      only once every field was accepted. */
  function WriteFields<O, E>(w: StructWriter<O, E>, written: seq<Field>, pending: seq<Field>): Run<O, E>
    decreases |pending|
  {
    if |pending| == 0 then Run(w.end(written), written, true)
    else
      match w.field(written, pending[0].key, pending[0].value)
      case Fail(e) => Run(Err(e), written, false)
      case Pass => WriteFields(w, written + [pending[0]], pending[1..])
  }

  /** Opens a struct `name` announcing `len` fields, then writes `fields`. */
  function WriteStruct<O, E>(w: StructWriter<O, E>, name: string, len: nat, fields: seq<Field>): Run<O, E>
  {
    match w.open(name, len)
    case Fail(e) => Run(Err(e), [], false)
    case Pass => WriteFields(w, [], fields)
  }

  /** The invariant of `WriteFields` when the fields already written were all
      accepted: the run writes a prefix of the record, every field in it was
      accepted, and it either reaches `end` with the whole record or stops
      at the first rejected field with exactly that field's error. */
  lemma {:induction false} WriteFieldsFrom<O, E>(w: StructWriter<O, E>, done: seq<Field>, pending: seq<Field>)
    requires AcceptedUpTo(w, done + pending, |done|)
    ensures var run := WriteFields(w, done, pending); var all := done + pending;
      && |done| <= |run.written| <= |all|
      && run.written == all[..|run.written|]
      && AcceptedUpTo(w, all, |run.written|)
      && (run.ended <==> |run.written| == |all|)
      && (run.ended ==> run.result == w.end(all))
      && (!run.ended ==> run.result.Err? && Verdict(w, all, |run.written|) == Fail(run.result.error))
    decreases |pending|
  {
    var all := done + pending;
    assert all[..|done|] == done;
    if |pending| == 0 {
      assert all == done;
    } else {
      assert all[|done|] == pending[0];
      assert Verdict(w, all, |done|) == w.field(done, pending[0].key, pending[0].value);
      match w.field(done, pending[0].key, pending[0].value)
      case Fail(e) =>
      case Pass =>
        var done' := done + [pending[0]];
        assert done' + pending[1..] == all;
        WriteFieldsFrom(w, done', pending[1..]);
    }
  }

  /** Error short-circuit for a whole record: `end` is reached exactly when
      every field is accepted, and then the result is what `end` returns;
      otherwise the result is the error of the first rejected field k and
      only the fields before k were written. */
  lemma WriteFieldsShortCircuit<O, E>(w: StructWriter<O, E>, fields: seq<Field>)
    ensures var run := WriteFields(w, [], fields);
      && (run.ended <==> AcceptedUpTo(w, fields, |fields|))
      && (run.ended ==> run.written == fields && run.result == w.end(fields))
      && (!run.ended ==>
            && |run.written| < |fields|
            && run.written == fields[..|run.written|]
            && AcceptedUpTo(w, fields, |run.written|)
            && run.result.Err?
            && Verdict(w, fields, |run.written|) == Fail(run.result.error))
  {
    assert [] + fields == fields;
    WriteFieldsFrom(w, [], fields);
    assert fields[..|fields|] == fields;
  }
}
