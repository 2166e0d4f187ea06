/** `write_change_report`: the Markdown report saved in each bundle. */
module Report {
  import opened Text
  import opened DirtyScan

  function AffectedLines(repos: seq<DirtyRepo>): seq<string> {
    seq(|repos|, i requires 0 <= i < |repos| => "- " + repos[i].name)
  }

  function ShaLines(repos: seq<DirtyRepo>): seq<string> {
    seq(|repos|, i requires 0 <= i < |repos| => "- " + repos[i].name + ": `" + repos[i].baseSha + "`")
  }

  function SummaryBlocks(repos: seq<DirtyRepo>): seq<string> {
    seq(|repos|, i requires 0 <= i < |repos| => "### " + repos[i].name + "\n```\n" + repos[i].summary + "\n```")
  }

  function RepoNames(repos: seq<DirtyRepo>): seq<string> {
    seq(|repos|, i requires 0 <= i < |repos| => repos[i].name)
  }

  /** The start of the apply loop's body, up to the bundle name. */
  const ApplyCommandPrefix := "  (cd deps/" + "\"$repo\" && " + "git apply " + "../../" + "patches/"

  /** The placeholder line under the tests heading. */
  const TestsPlaceholder := "- Add " + "commands " + "used to " + "validate " + "this " + "bundle " + "here."

  /** The loop header of the apply instructions. */
  function ApplyLoopLine(repos: seq<DirtyRepo>): string {
    "for repo in " + Join(" ", RepoNames(repos)) + "; do"
  }

  /** The loop body of the apply instructions. */
  function ApplyCommandLine(bundle: string): string {
    ApplyCommandPrefix + bundle + "/\"$repo\".patch)"
  }

  /** The report after the summary heading: the summaries, the apply loop and the tests stub. */
  function ReportTail(bundle: string, repos: seq<DirtyRepo>): string {
    Join("\n\n", SummaryBlocks(repos)) + "\n" + "\n" + "## Apply instructions" + "\n" + "```bash"
    + "\n" + ApplyLoopLine(repos) + "\n" + ApplyCommandLine(bundle) + "\n" + "done" + "\n" + "```"
    + "\n" + "\n" + "## Tests" + "\n" + TestsPlaceholder + "\n"
  }

  /** The report up to the summary heading. */
  function ReportHead(repos: seq<DirtyRepo>): string {
    "# Change Report" + "\n" + "\n" + "## Affected repos" + "\n" + Join("\n", AffectedLines(repos))
    + "\n" + "\n" + "## Base SHAs" + "\n" + Join("\n", ShaLines(repos))
    + "\n" + "\n" + "## Summary"
  }

  /** The text saved as `change_report.md` in the bundle directory named `bundle`. */
  function ChangeReport(bundle: string, repos: seq<DirtyRepo>): string {
    ReportHead(repos) + "\n" + ReportTail(bundle, repos)
  }

  /** The affected list and the SHA list have one line per repository. */
  lemma ReportListsAreLines(repos: seq<DirtyRepo>)
    requires repos != []
    requires forall k :: 0 <= k < |repos| ==> '\n' !in repos[k].name && '\n' !in repos[k].baseSha
    ensures Split(Join("\n", AffectedLines(repos)), '\n') == AffectedLines(repos)
    ensures Split(Join("\n", ShaLines(repos)), '\n') == ShaLines(repos)
  {
    var affected, shas := AffectedLines(repos), ShaLines(repos);
    forall k | 0 <= k < |repos| ensures '\n' !in affected[k] && '\n' !in shas[k] {
      assert affected[k] == "- " + repos[k].name;
      assert shas[k] == "- " + repos[k].name + ": `" + repos[k].baseSha + "`";
    }
    SplitJoin('\n', affected);
    SplitJoin('\n', shas);
  }

  lemma HeadingsAreLines()
    ensures '\n' !in "# Change Report" && '\n' !in "## Affected repos"
    ensures '\n' !in "## Base SHAs" && '\n' !in "## Summary"
  {
  }

  /** Line by line, the head of the report is its title, the affected repositories one per
      line, their base SHAs one per line, and the summary heading. */
  lemma ReportHeadLines(repos: seq<DirtyRepo>)
    requires repos != []
    requires forall k :: 0 <= k < |repos| ==> '\n' !in repos[k].name && '\n' !in repos[k].baseSha
    ensures Split(ReportHead(repos), '\n') == ["# Change Report", "", "## Affected repos"]
      + AffectedLines(repos) + ["", "## Base SHAs"] + ShaLines(repos) + ["", "## Summary"]
  {
    var nl := '\n';
    var affected, shas := AffectedLines(repos), ShaLines(repos);
    var a, b := Join("\n", affected), Join("\n", shas);
    ReportListsAreLines(repos);
    HeadingsAreLines();
    var q0 := "# Change Report";
    var q2 := q0 + "\n" + "\n" + "## Affected repos";
    var q5 := q2 + "\n" + a + "\n" + "\n" + "## Base SHAs";
    var q8 := q5 + "\n" + b + "\n" + "\n" + "## Summary";
    assert ReportHead(repos) == q8;
    assert Split(q2, nl) == ["# Change Report", "", "## Affected repos"] by {
      SplitNone(q0, nl);
      SplitBlankThenLast(q0, nl, "## Affected repos");
    }
    assert Split(q5, nl) == Split(q2, nl) + affected + ["", "## Base SHAs"] by {
      SplitConcat(q2, nl, a);
      SplitBlankThenLast(q2 + "\n" + a, nl, "## Base SHAs");
    }
    assert Split(q8, nl) == Split(q5, nl) + shas + ["", "## Summary"] by {
      SplitConcat(q5, nl, b);
      SplitBlankThenLast(q5 + "\n" + b, nl, "## Summary");
    }
  }

  // The fixed lines of the report's tail hold no line break (one small lemma each, since the
  // solver checks such facts character by character).
  lemma ApplyHeadingIsLine() ensures '\n' !in "## Apply instructions" {}
  lemma FenceIsLine() ensures '\n' !in "```bash" && '\n' !in "done" && '\n' !in "```" {}
  lemma TestsHeadingIsLine() ensures '\n' !in "## Tests" {}
  lemma PlaceholderIsLine() ensures '\n' !in TestsPlaceholder {}
  lemma ApplyCommandPartsAreLines() ensures '\n' !in ApplyCommandPrefix && '\n' !in "/\"$repo\".patch)" {}

  /** The apply loop's two lines are single lines when no name contains a line break. */
  lemma ApplyLinesAreLines(bundle: string, repos: seq<DirtyRepo>)
    requires '\n' !in bundle
    requires forall k :: 0 <= k < |repos| ==> '\n' !in repos[k].name
    ensures '\n' !in ApplyLoopLine(repos) && '\n' !in ApplyCommandLine(bundle)
  {
    var names := RepoNames(repos);
    JoinFree(" ", names, '\n');
    ApplyCommandPartsAreLines();
  }

  lemma OpenFenceLines(t: string)
    ensures Split(t + "\n" + "\n" + "## Apply instructions" + "\n" + "```bash", '\n')
      == Split(t, '\n') + ["", "## Apply instructions", "```bash"]
  {
    ApplyHeadingIsLine();
    FenceIsLine();
    SplitBlankThenLast(t, '\n', "## Apply instructions");
    SplitLast(t + "\n" + "\n" + "## Apply instructions", '\n', "```bash");
  }

  lemma TwoLines(t: string, x: string, y: string)
    requires '\n' !in x && '\n' !in y
    ensures Split(t + "\n" + x + "\n" + y, '\n') == Split(t, '\n') + [x, y]
  {
    SplitLast(t, '\n', x);
    SplitLast(t + "\n" + x, '\n', y);
  }

  /** The fenced apply block, appended after a blank line, adds its lines after those of `t`. */
  lemma ApplyBlockLines(t: string, loop: string, cmd: string)
    requires '\n' !in loop && '\n' !in cmd
    ensures Split(t + "\n" + "\n" + "## Apply instructions" + "\n" + "```bash" + "\n" + loop + "\n" + cmd
                  + "\n" + "done" + "\n" + "```", '\n')
      == Split(t, '\n') + ["", "## Apply instructions", "```bash", loop, cmd, "done", "```"]
  {
    var t2 := t + "\n" + "\n" + "## Apply instructions" + "\n" + "```bash";
    OpenFenceLines(t);
    TwoLines(t2, loop, cmd);
    FenceIsLine();
    TwoLines(t2 + "\n" + loop + "\n" + cmd, "done", "```");
  }

  /** The tests section, appended after a blank line, adds its lines after those of `t`. */
  lemma TestsBlockLines(t: string)
    ensures Split(t + "\n" + "\n" + "## Tests" + "\n" + TestsPlaceholder + "\n", '\n')
      == Split(t, '\n') + ["", "## Tests", TestsPlaceholder, ""]
  {
    var nl := '\n';
    TestsHeadingIsLine();
    PlaceholderIsLine();
    SplitBlankThenLast(t, nl, "## Tests");
    SplitLast(t + "\n" + "\n" + "## Tests", nl, TestsPlaceholder);
    SplitTrailing(t + "\n" + "\n" + "## Tests" + "\n" + TestsPlaceholder, nl);
  }

  /** Line by line, the tail of the report is the summaries, then the apply instructions in a
      fenced block, then the tests heading and its placeholder, ending with a line break. */
  lemma ReportTailLines(bundle: string, repos: seq<DirtyRepo>)
    requires '\n' !in bundle
    requires forall k :: 0 <= k < |repos| ==> '\n' !in repos[k].name
    ensures Split(ReportTail(bundle, repos), '\n') == Split(Join("\n\n", SummaryBlocks(repos)), '\n')
      + ["", "## Apply instructions", "```bash", ApplyLoopLine(repos), ApplyCommandLine(bundle), "done", "```",
         "", "## Tests", TestsPlaceholder, ""]
  {
    var t0 := Join("\n\n", SummaryBlocks(repos));
    var loop, cmd := ApplyLoopLine(repos), ApplyCommandLine(bundle);
    ApplyLinesAreLines(bundle, repos);
    ApplyBlockLines(t0, loop, cmd);
    TestsBlockLines(t0 + "\n" + "\n" + "## Apply instructions" + "\n" + "```bash" + "\n" + loop + "\n" + cmd
                  + "\n" + "done" + "\n" + "```");
  }

  /** Read line by line, the report is its title, the affected repositories one per line, their
      base SHAs one per line, the summary heading and the summaries, the apply instructions and
      the tests section: every section present, in this order. */
  lemma ReportLines(bundle: string, repos: seq<DirtyRepo>)
    requires repos != [] && '\n' !in bundle
    requires forall k :: 0 <= k < |repos| ==> '\n' !in repos[k].name && '\n' !in repos[k].baseSha
    ensures Split(ChangeReport(bundle, repos), '\n') ==
      ["# Change Report", "", "## Affected repos"] + AffectedLines(repos)
      + ["", "## Base SHAs"] + ShaLines(repos) + ["", "## Summary"]
      + Split(Join("\n\n", SummaryBlocks(repos)), '\n')
      + ["", "## Apply instructions", "```bash", ApplyLoopLine(repos), ApplyCommandLine(bundle), "done", "```",
         "", "## Tests", TestsPlaceholder, ""]
  {
    ReportHeadLines(repos);
    ReportTailLines(bundle, repos);
    SplitConcat(ReportHead(repos), '\n', ReportTail(bundle, repos));
  }
}
