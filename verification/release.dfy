/** The changelog views of `crate::release` that the serializer is written
    for: `ChangelogCommit` over a `Commit`, and `ChangelogFooter` over a
    `Footer` (both from the `Commits` module). */
module Release {
  import opened Wrappers
  import opened Commits

  /** The changelog's view of a commit: the commit itself, the title of its
      changelog section and the author's resolved username, if any. */
  datatype ChangelogCommit = ChangelogCommit(
    changelogTitle: string,
    authorUsername: Option<string>,
    commit: Commit)

  /** The changelog's view of one footer. */
  datatype ChangelogFooter = ChangelogFooter(token: string, content: string)

  /** `ChangelogFooter::from`: projects a footer onto its token and content. */
  function FromFooter(f: Footer): ChangelogFooter
  {
    ChangelogFooter(f.token, f.content)
  }
}
