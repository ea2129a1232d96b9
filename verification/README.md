# Changelog commit record serializer (cocogitto)

A Dafny model of how cocogitto's changelog turns one commit into the record
handed to changelog templates and encoders. The hand-written `Serialize` for
`ChangelogCommit` opens a struct named `"Commit"` with a length hint of 10.
It then writes ten named fields in a fixed order:
`id, author, signature, type, date, scope, summary, body, breaking_change, footer`.
The footer list is the commit's footers, each projected through
`ChangelogFooter::from`, in message order. The struct opening and each of the
ten field writes are followed by `?`, so the first writer error ends the
serialization and is returned unchanged. The result of the final `end()` is
returned as it is.

Files:

- `wrappers.dfy` (`Wrappers`): `Option`, `Result`, and a pass/fail `Outcome` for writer steps that return `()`.
- `commits.dfy` (`Commits`): the commit data model of the `cocogitto_commit` crate (`Commit`, `ConventionalCommit`, `Footer`, `CommitType`).
- `release.dfy` (`Release`): the changelog views of `crate::release` (`ChangelogCommit`, `ChangelogFooter`) and `FromFooter` (`ChangelogFooter::from`).
- `serde.dfy` (`Serde`): the slice of serde's data model a struct serializer uses. It has values, named fields, and an abstract struct writer (`StructWriter`) whose `open`, `field` and `end` steps may each fail. It also has `WriteStruct`/`WriteFields`, which write fields in order and stop at the first error. `Lookup` reads the fields passed to the writer by key. It reads that field sequence, not an encoded document.
- `commit_serde.dfy` (`CommitSerde`): `Record` (the ten fields), `Serialize` (the record written through a writer), and the properties.

The writer is an oracle, not an encoder. A field step is told which fields were already accepted, so a stateful encoder is covered. The clock used by the unit test (`Utc::now()`) becomes a parameter of `ShouldSerializeCommit`.

## Model

| member | source | states |
|---|---|---|
| CommitSerde.FooterValues | crates/cocogitto-changelog/src/serde.rs:12-18 | the footer list has as many entries as the commit has footers, and entry i is `ChangelogFooter::from` of footer i, so order is kept |
| CommitSerde.RecordShape | crates/cocogitto-changelog/src/serde.rs:10-32 | the record has exactly as many fields as the announced hint of 10; its keys are id, author, signature, type, date, scope, summary, body, breaking_change, footer in that order, with no key repeated |
| CommitSerde.RecordCopies | crates/cocogitto-changelog/src/serde.rs:20-26 | reading the record by key gives `oid` under id, the author signature under signature, the changelog title under type, the date under date and the summary under summary, with no change beyond the rename |
| CommitSerde.OptionalFields | crates/cocogitto-changelog/src/serde.rs:21-27 | author, scope and body are always among the fields passed to the writer; an absent value is passed as null and a present one as its string |
| CommitSerde.BreakingChangePresent | crates/cocogitto-changelog/src/serde.rs:28-31 | breaking_change is always present and equals the commit's breaking flag, false included |
| CommitSerde.FooterField | crates/cocogitto-changelog/src/serde.rs:12-32 | footer is always present as a list with one projected entry per commit footer, in order; a commit without footers gives an empty list, not a missing key |
| CommitSerde.RecordDeterminesView | crates/cocogitto-changelog/src/serde.rs:20-32 | two commits give the same record if and only if they agree on the nine scalar and optional fields the record draws from and on their projected footer lists: nothing drawn is lost and nothing else, such as the commit type, is read |
| Serde.LookupAt | crates/cocogitto-changelog/src/serde.rs:20-32 | in a record without repeated keys, reading field i's key by name gives field i's value, so the keyed reads above describe the written fields |
| Serde.WriteFieldsFrom | crates/cocogitto-changelog/src/serde.rs:20-33 | once the fields already written were accepted, a run writes a prefix of the record and every field in it was accepted; it reaches `end` with the whole record or stops at the first rejected field with that field's error |
| Serde.WriteFieldsShortCircuit | crates/cocogitto-changelog/src/serde.rs:20-33 | `end` is reached exactly when every field is accepted, and then its result is returned; otherwise the first rejected field's error is returned unchanged and only the fields before it were written |
| CommitSerde.SerializeShortCircuit | crates/cocogitto-changelog/src/serde.rs:10-33 | a rejected struct opening returns its error with nothing written and `end` not reached; after an accepted opening the ten fields follow the short-circuit rule above |
| CommitSerde.SerializeSucceeds | crates/cocogitto-changelog/src/serde.rs:10-33 | serialization returns Ok exactly when the writer accepts the opening, all ten fields and the closing; the Ok value is the writer's result for the full record |
| CommitSerde.ShouldSerializeCommit | crates/cocogitto-changelog/src/serde.rs:69-94 | the unit test's commit serializes to Ok through a writer that never fails; its record has id "1234567890", type "BugFix", scope "parser", the test's summary, breaking_change false and the one footer token/content |

## Left out

- The encoder itself (`toml::to_string` and serde's `Serializer`/`SerializeStruct` implementations) is an external library. It appears only as the abstract `StructWriter` oracle. How a `Value` is finally rendered is not modelled. How a format represents null is not modelled either: toml, for one, leaves out a key whose value is `None`. `OptionalFields` speaks of the fields passed to the writer, not of the encoded output.
- `ChangelogFooter::from` and the `ChangelogFooter` type live in `crates/cocogitto-changelog/src/release.rs`, which is not part of this model. `FromFooter` copies the footer's token and content. Of the properties, only `ShouldSerializeCommit`'s expected footer (token "token", content "content") relies on that copy. The others hold whatever `FromFooter` computes, as long as it is applied to each footer in order. How a `ChangelogFooter` value encodes itself is not modelled either.
- `Footer` carries only its token and content. Its other default-valued fields are not read by the serializer and are left out. `RecordDeterminesView` compares footers only through their projections, so it does not depend on this.
- Dates: `chrono`'s `NaiveDateTime` and its formatting are replaced by an opaque `NaiveDateTime(ticks)` that the record carries unchanged. `Utc::now()` in the unit test becomes a parameter.
- `CommitType` has only the variants this model needs, `Feature`, `BugFix` and `Custom`, because the record never reads it.
- The `Tag` serialization test (crates/cocogitto-changelog/src/serde.rs:48-66) uses `Tag::from_str` and `Tag`'s own `Serialize` impl. Neither is in the modelled file.
- `git2::Oid`, the global `SETTINGS`, and the borrowed lifetime of `ChangelogCommit<'_>` play no part in the mapping. The object id is a string and the view holds its commit by value.
- Serializing the same commit twice giving identical output holds by construction: every member here is a pure function.
