/** The commit data model of the `cocogitto_commit` crate, as far as the
    changelog serializer reads it: a located commit and its parsed
    conventional-commit fields. */
module Commits {
  import opened Wrappers

  /** A naive UTC timestamp, kept opaque: the serializer only passes it on. */
  datatype NaiveDateTime = NaiveDateTime(ticks: int)

  /** The kind of a conventional commit. It is carried by the commit but is
      not part of the serialized record. */
  datatype CommitType = Feature | BugFix | Custom(name: string)

  /** One trailer of a commit message, e.g. `BREAKING CHANGE: ...`. */
  datatype Footer = Footer(token: string, content: string)

  /** A parsed conventional commit; `footers` keeps the order of the message. */
  datatype ConventionalCommit = ConventionalCommit(
    commitType: CommitType,
    scope: Option<string>,
    summary: string,
    body: Option<string>,
    footers: seq<Footer>,
    isBreakingChange: bool)

  /** A commit located in the repository. */
  datatype Commit = Commit(
    oid: string,
    conventional: ConventionalCommit,
    author: string,
    date: NaiveDateTime)
}
