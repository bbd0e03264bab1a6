/** The two review modes (`process_files`, `analyze_commit_files`,
    `process_patch`, `analyze_patch`; src/main.py:113-148, 175-187, 198-223),
    modelled as pure functions from the collaborators' answers to the trace of
    calls the run makes on them.

    The source-control host is a `Host` value that holds the commit list, the
    changed files of each commit, the per-file content fetch (`None` when the
    fetch raises) and the patch text. The completion service is a function
    from a prompt to the review text, or to `None` when the call raises. That
    exception is not caught in the source, so the run stops right after the
    call: its outcome is `Aborted` and nothing is posted.

    The prompt wording is a `Template` parameter `wording`; the action runs
    with `StandardTemplate`, for which `BuildPrompt(wording, ...)` is
    `CreateReviewPrompt(...)`. Every property below holds for any wording. */
module Orchestrator {
  import opened Sequences
  import opened Options
  import opened FileFilter
  import opened PromptBuilder
  import opened PatchAggregation

  /** One call on a collaborator. */
  datatype Effect =
    | ListCommits                                   // get_pr(...).get_commits()
    | FetchFiles(sha: string)                       // get_commit_files(commit)
    | FetchContent(sha: string, filename: string)   // get_file_content(sha, filename)
    | FetchPatch                                    // get_pr_patch(pr_id)
    | Generate(prompt: string)                      // generate_response(prompt)
    | Post(text: string)                            // post_comment(pr_id, text)

  /** `Aborted` when the completion service raised and the exception ended the run. */
  datatype Outcome = Finished | Aborted

  datatype Run = Run(effects: seq<Effect>, outcome: Outcome)

  /** The answers of the source-control host. */
  datatype Host = Host(
    commits: seq<string>,
    changedFiles: string -> seq<FileChange>,
    fileContent: (string, string) -> Option<string>,
    patch: string)

  /** The run's settings: review language, custom prompt, and the include and
      exclude patterns of files mode. */
  datatype Settings = Settings(
    language: string,
    customPrompt: Option<string>,
    includePattern: Option<string>,
    excludePattern: Option<string>)

  /** The prefix of every posted review. */
  const ReviewBanner := "ChatGPT's code review:\n "

  /** The comment posted for an empty patch. */
  const NoChangesNotice := "Patch file does not contain any changes"

  predicate IsGenerate(e: Effect) { e.Generate? }
  predicate IsPost(e: Effect) { e.Post? }
  predicate IsFetch(e: Effect) { e.FetchFiles? || e.FetchContent? }

  /** The host calls of `e`, if any, concern commit `sha`. */
  predicate AtCommit(e: Effect, sha: string) {
    (e.FetchFiles? ==> e.sha == sha) && (e.FetchContent? ==> e.sha == sha)
  }

  function NameOf(f: FileChange): string { f.filename }

  /** The file name a content fetch asks for, and "" for any other call. */
  function FetchedName(e: Effect): string {
    if e.FetchContent? then e.filename else ""
  }

  predicate IsContentFetch(e: Effect) { e.FetchContent? }

  /** The file names whose content the run fetched, in call order. */
  function FetchedNames(effects: seq<Effect>): seq<string> {
    Map(Select(effects, IsContentFetch), FetchedName)
  }

  // ---------------------------------------------------------------------
  // Files mode

  /** The block one fetched file contributes to the combined content. */
  function FileBlock(filename: string, content: string): string {
    "\n### File: " + filename + "\n```" + content + "```\n"
  }

  /** What file `f` contributes: its block when the fetch succeeds, nothing when it raises. */
  function FileContribution(sha: string, fileContent: (string, string) -> Option<string>, f: FileChange): string {
    match fileContent(sha, f.filename)
    case Some(content) => FileBlock(f.filename, content)
    case None => ""
  }

  /** The combined content after the loop has visited `files`: each visit
      appends that file's contribution to what the earlier visits built. */
  function CombineFiles(sha: string, files: seq<FileChange>, fileContent: (string, string) -> Option<string>): string {
    JoinLeft(files, FetchedBlock(sha, fileContent))
  }

  function Fetched(sha: string, fileContent: (string, string) -> Option<string>): FileChange -> bool {
    (f: FileChange) => fileContent(sha, f.filename).Some?
  }

  function FetchedBlock(sha: string, fileContent: (string, string) -> Option<string>): FileChange -> string {
    (f: FileChange) => FileContribution(sha, fileContent, f)
  }

  /** The loop's result is the blocks of the successfully fetched files, in
      filter order, each `"\n### File: " + name + "\n```" + content + "```\n"`. */
  lemma CombineFilesIsFetchedBlocks(sha: string, files: seq<FileChange>,
                                    fileContent: (string, string) -> Option<string>)
    ensures CombineFiles(sha, files, fileContent)
         == Concat(Map(Select(files, Fetched(sha, fileContent)), FetchedBlock(sha, fileContent)))
  {
    JoinLeftSelect(files, Fetched(sha, fileContent), FetchedBlock(sha, fileContent));
  }

  /** Appending files appends their contributions. */
  lemma CombineFilesAppend(sha: string, a: seq<FileChange>, b: seq<FileChange>,
                           fileContent: (string, string) -> Option<string>)
    ensures CombineFiles(sha, a + b, fileContent) == CombineFiles(sha, a, fileContent) + CombineFiles(sha, b, fileContent)
  {
    var keep := Fetched(sha, fileContent);
    var block := FetchedBlock(sha, fileContent);
    CombineFilesIsFetchedBlocks(sha, a + b, fileContent);
    CombineFilesIsFetchedBlocks(sha, a, fileContent);
    CombineFilesIsFetchedBlocks(sha, b, fileContent);
    SelectAppend(a, b, keep);
    MapAppend(Select(a, keep), Select(b, keep), block);
    ConcatAppend(Map(Select(a, keep), block), Map(Select(b, keep), block));
  }

  /** Failure isolation: a file whose fetch raises contributes nothing, so
      the combined content is the one the other files give on their own. */
  lemma FailedFileContributesNothing(sha: string, a: seq<FileChange>, f: FileChange, b: seq<FileChange>,
                                     fileContent: (string, string) -> Option<string>)
    requires fileContent(sha, f.filename).None?
    ensures CombineFiles(sha, a + [f] + b, fileContent) == CombineFiles(sha, a + b, fileContent)
  {
    CombineFilesAppend(sha, a + [f], b, fileContent);
    CombineFilesAppend(sha, a, [f], fileContent);
    CombineFilesAppend(sha, a, b, fileContent);
    CombineOne(sha, f, fileContent);
  }

  lemma CombineOne(sha: string, f: FileChange, fileContent: (string, string) -> Option<string>)
    ensures CombineFiles(sha, [f], fileContent) == FileContribution(sha, fileContent, f)
  {
    assert [f][..0] == [];
  }

  /** When every fetch raises, the combined content is empty. */
  lemma AllFetchesFail(sha: string, files: seq<FileChange>, fileContent: (string, string) -> Option<string>)
    requires forall i :: 0 <= i < |files| ==> fileContent(sha, files[i].filename).None?
    ensures CombineFiles(sha, files, fileContent) == ""
  {
    CombineFilesIsFetchedBlocks(sha, files, fileContent);
    SelectNone(files, Fetched(sha, fileContent));
  }

  function FetchOf(sha: string): FileChange -> Effect {
    (f: FileChange) => FetchContent(sha, f.filename)
  }

  /** Send the prompt once and post the banner-prefixed review, unless the
      completion service raises. */
  function ReviewAndPost(prompt: string, complete: string -> Option<string>): (run: Run)
    ensures |run.effects| >= 1 && run.effects[0] == Generate(prompt)
    ensures forall i :: 0 <= i < |run.effects| ==> run.effects[i].Generate? || run.effects[i].Post?
    ensures run.outcome == Finished <==> complete(prompt).Some?
    ensures run.outcome == Finished ==> run.effects == [Generate(prompt), Post(ReviewBanner + complete(prompt).value)]
    ensures run.outcome == Aborted ==> run.effects == [Generate(prompt)]
  {
    match complete(prompt)
    case Some(review) => Run([Generate(prompt), Post(ReviewBanner + review)], Finished)
    case None => Run([Generate(prompt)], Aborted)
  }

  /** The files kept for review in commit `sha`. */
  function ReviewedFiles(host: Host, sha: string, settings: Settings, search: (string, string) -> bool): seq<FileChange> {
    FilterFiles(host.changedFiles(sha), settings.includePattern, settings.excludePattern, search)
  }

  /** The combined content of commit `sha`. */
  function CommitContent(host: Host, sha: string, settings: Settings, search: (string, string) -> bool): string {
    CombineFiles(sha, ReviewedFiles(host, sha, settings, search), host.fileContent)
  }

  /** `analyze_commit_files`: list the commit's files, filter them, fetch each
      kept file, then request and post one review. */
  function AnalyzeCommitFiles(host: Host, sha: string, settings: Settings, wording: Template, search: (string, string) -> bool,
                              complete: string -> Option<string>): (run: Run)
    ensures |run.effects| >= 2 && run.effects[0] == FetchFiles(sha)
  {
    var files := ReviewedFiles(host, sha, settings, search);
    var prompt := BuildPrompt(wording, CombineFiles(sha, files, host.fileContent), settings.language, settings.customPrompt);
    var review := ReviewAndPost(prompt, complete);
    Run([FetchFiles(sha)] + Map(files, FetchOf(sha)) + review.effects, review.outcome)
  }

  /** `process_files`: with no commits nothing else happens; otherwise only
      the last commit is analysed. */
  function ProcessFiles(host: Host, settings: Settings, wording: Template, search: (string, string) -> bool,
                        complete: string -> Option<string>): (run: Run)
    ensures |run.effects| >= 1 && run.effects[0] == ListCommits
    ensures |host.commits| == 0 ==> run == Run([ListCommits], Finished)
  {
    if |host.commits| == 0 then
      Run([ListCommits], Finished)
    else
      var r := AnalyzeCommitFiles(host, host.commits[|host.commits| - 1], settings, wording, search, complete);
      Run([ListCommits] + r.effects, r.outcome)
  }

  /** Content fetches are neither completion calls nor posts, and they name
      the files in order. */
  lemma ContentFetchFacts(sha: string, files: seq<FileChange>)
    ensures Count(Map(files, FetchOf(sha)), IsGenerate) == 0
    ensures Count(Map(files, FetchOf(sha)), IsPost) == 0
    ensures forall i :: 0 <= i < |files| ==> AtCommit(Map(files, FetchOf(sha))[i], sha)
    ensures FetchedNames(Map(files, FetchOf(sha))) == Map(files, NameOf)
  {
    var fetches := Map(files, FetchOf(sha));
    SelectAll(fetches, IsContentFetch);
  }

  /** The trace of files mode once the commit, the kept files and the prompt are known. */
  function CommitTrace(sha: string, files: seq<FileChange>, prompt: string, complete: string -> Option<string>): Run {
    var review := ReviewAndPost(prompt, complete);
    Run([ListCommits, FetchFiles(sha)] + Map(files, FetchOf(sha)) + review.effects, review.outcome)
  }

  /** Files mode with at least one commit follows `CommitTrace` for the last
      commit, its filtered files and the prompt for their combined content. */
  lemma FilesRunIsCommitTrace(host: Host, settings: Settings, wording: Template, search: (string, string) -> bool,
                              complete: string -> Option<string>)
    requires |host.commits| > 0
    ensures var sha := host.commits[|host.commits| - 1];
            ProcessFiles(host, settings, wording, search, complete)
            == CommitTrace(sha, ReviewedFiles(host, sha, settings, search),
                           BuildPrompt(wording, CommitContent(host, sha, settings, search),
                                              settings.language, settings.customPrompt),
                           complete)
  {
    var sha := host.commits[|host.commits| - 1];
    var prompt := BuildPrompt(wording, CommitContent(host, sha, settings, search), settings.language, settings.customPrompt);
    PrependRegroup(ListCommits, FetchFiles(sha), Map(ReviewedFiles(host, sha, settings, search), FetchOf(sha)),
                   ReviewAndPost(prompt, complete).effects);
  }

  /** A commit trace touches only its commit and fetches the content of
      exactly the given files, in order. */
  lemma CommitTraceFetches(sha: string, files: seq<FileChange>, prompt: string, complete: string -> Option<string>)
    ensures var run := CommitTrace(sha, files, prompt, complete);
            && (forall i :: 0 <= i < |run.effects| ==> AtCommit(run.effects[i], sha))
            && FetchedNames(run.effects) == Map(files, NameOf)
  {
    var fetches := Map(files, FetchOf(sha));
    var review := ReviewAndPost(prompt, complete);
    var head := [ListCommits, FetchFiles(sha)];
    assert CommitTrace(sha, files, prompt, complete).effects == head + fetches + review.effects;
    ContentFetchFacts(sha, files);
    TraceFetches(head, fetches, review.effects, sha);
  }

  /** Appending the three parts of a files-mode trace: the fetched names and
      the commit of every call come from the middle part alone. */
  lemma TraceFetches(head: seq<Effect>, fetches: seq<Effect>, tail: seq<Effect>, sha: string)
    requires head == [ListCommits, FetchFiles(sha)]
    requires forall i :: 0 <= i < |tail| ==> tail[i].Generate? || tail[i].Post?
    requires forall i :: 0 <= i < |fetches| ==> AtCommit(fetches[i], sha)
    ensures forall i :: 0 <= i < |head + fetches + tail| ==> AtCommit((head + fetches + tail)[i], sha)
    ensures FetchedNames(head + fetches + tail) == FetchedNames(fetches)
  {
    SelectAppend(head + fetches, tail, IsContentFetch);
    SelectAppend(head, fetches, IsContentFetch);
    SelectNone(tail, IsContentFetch);
    SelectNone(head, IsContentFetch);
    assert head + fetches + [] == head + fetches;
    assert [] + Select(fetches, IsContentFetch) == Select(fetches, IsContentFetch);
  }

  /** Counting completion calls and posts across the three parts of a trace. */
  lemma TraceCounts(head: seq<Effect>, fetches: seq<Effect>, tail: seq<Effect>)
    requires Count(head, IsGenerate) == 0 && Count(head, IsPost) == 0
    requires Count(fetches, IsGenerate) == 0 && Count(fetches, IsPost) == 0
    ensures Count(head + fetches + tail, IsGenerate) == Count(tail, IsGenerate)
    ensures Count(head + fetches + tail, IsPost) == Count(tail, IsPost)
  {
    CountAppend(head + fetches, tail, IsGenerate);
    CountAppend(head, fetches, IsGenerate);
    CountAppend(head + fetches, tail, IsPost);
    CountAppend(head, fetches, IsPost);
  }

  /** A commit trace calls the completion service exactly once, on its prompt,
      whatever the fetches returned; it posts one comment, the banner and the
      review, last, exactly when that call returns. */
  lemma CommitTraceReviewsOnce(sha: string, files: seq<FileChange>, prompt: string, complete: string -> Option<string>)
    ensures var run := CommitTrace(sha, files, prompt, complete);
            && Count(run.effects, IsGenerate) == 1
            && Generate(prompt) in run.effects
            && Count(run.effects, IsPost) == (if run.outcome == Finished then 1 else 0)
            && (run.outcome == Finished <==> complete(prompt).Some?)
            && (run.outcome == Finished ==> run.effects[|run.effects| - 1] == Post(ReviewBanner + complete(prompt).value))
  {
    var fetches := Map(files, FetchOf(sha));
    var review := ReviewAndPost(prompt, complete);
    var head := [ListCommits, FetchFiles(sha)];
    ContentFetchFacts(sha, files);
    TraceCounts(head, fetches, review.effects);
    var effects := head + fetches + review.effects;
    assert effects[|head + fetches|] == review.effects[0];
  }

  /** Files mode with at least one commit touches only the last commit, and
      fetches the content of exactly the filtered files, in filter order. */
  lemma FilesRunFetches(host: Host, settings: Settings, wording: Template, search: (string, string) -> bool,
                        complete: string -> Option<string>)
    requires |host.commits| > 0
    ensures var run := ProcessFiles(host, settings, wording, search, complete);
            var sha := host.commits[|host.commits| - 1];
            && (forall i :: 0 <= i < |run.effects| ==> AtCommit(run.effects[i], sha))
            && FetchedNames(run.effects) == Map(ReviewedFiles(host, sha, settings, search), NameOf)
  {
    var sha := host.commits[|host.commits| - 1];
    var prompt := BuildPrompt(wording, CommitContent(host, sha, settings, search), settings.language, settings.customPrompt);
    FilesRunIsCommitTrace(host, settings, wording, search, complete);
    CommitTraceFetches(sha, ReviewedFiles(host, sha, settings, search), prompt, complete);
  }

  /** Files mode with at least one commit calls the completion service exactly
      once, on the prompt for the combined content, even when every fetch
      failed; it posts one comment, the banner and the review, last, exactly
      when that call returns. */
  lemma FilesRunReviewsOnce(host: Host, settings: Settings, wording: Template, search: (string, string) -> bool,
                            complete: string -> Option<string>)
    requires |host.commits| > 0
    ensures var run := ProcessFiles(host, settings, wording, search, complete);
            var sha := host.commits[|host.commits| - 1];
            var prompt := BuildPrompt(wording, CommitContent(host, sha, settings, search),
                                             settings.language, settings.customPrompt);
            && Count(run.effects, IsGenerate) == 1
            && Generate(prompt) in run.effects
            && Count(run.effects, IsPost) == (if run.outcome == Finished then 1 else 0)
            && (run.outcome == Finished <==> complete(prompt).Some?)
            && (run.outcome == Finished ==> run.effects[|run.effects| - 1] == Post(ReviewBanner + complete(prompt).value))
  {
    var sha := host.commits[|host.commits| - 1];
    var prompt := BuildPrompt(wording, CommitContent(host, sha, settings, search), settings.language, settings.customPrompt);
    FilesRunIsCommitTrace(host, settings, wording, search, complete);
    CommitTraceReviewsOnce(sha, ReviewedFiles(host, sha, settings, search), prompt, complete);
  }

  /** Files mode with no commits lists the commits and does nothing else: no
      host fetch, no completion call, no post. */
  lemma ZeroCommits(host: Host, settings: Settings, wording: Template, search: (string, string) -> bool,
                    complete: string -> Option<string>)
    requires |host.commits| == 0
    ensures var run := ProcessFiles(host, settings, wording, search, complete);
            && Count(run.effects, IsFetch) == 0 && Count(run.effects, IsGenerate) == 0
            && Count(run.effects, IsPost) == 0 && run.outcome == Finished
  {
  }

  /** The answers about earlier commits do not matter: two hosts whose
      commit lists end with the same commit, and which agree on that commit's
      changed files and file contents, give the same run. */
  lemma OnlyLastCommitMatters(h1: Host, h2: Host, settings: Settings, wording: Template, search: (string, string) -> bool,
                              complete: string -> Option<string>)
    requires |h1.commits| > 0 && |h2.commits| > 0
    requires h1.commits[|h1.commits| - 1] == h2.commits[|h2.commits| - 1]
    requires var sha := h1.commits[|h1.commits| - 1];
             h1.changedFiles(sha) == h2.changedFiles(sha)
             && forall name :: h1.fileContent(sha, name) == h2.fileContent(sha, name)
    ensures ProcessFiles(h1, settings, wording, search, complete) == ProcessFiles(h2, settings, wording, search, complete)
  {
    var sha := h1.commits[|h1.commits| - 1];
    var files := ReviewedFiles(h1, sha, settings, search);
    JoinLeftSame(files, FetchedBlock(sha, h1.fileContent), FetchedBlock(sha, h2.fileContent));
    assert CommitContent(h1, sha, settings, search) == CommitContent(h2, sha, settings, search);
  }

  /** Of two files, an include pattern that matches only the first keeps only the first. */
  lemma KeepFirstOfTwo(files: seq<FileChange>, incl: Option<string>, excl: Option<string>,
                       search: (string, string) -> bool)
    requires |files| == 2 && Truthy(incl) && !Truthy(excl)
    requires search(incl.value, files[0].filename) && !search(incl.value, files[1].filename)
    ensures FilterFiles(files, incl, excl, search) == [files[0]]
  {
    FilterIsSinglePass(files, incl, excl, search);
    assert files[1..][1..] == [];
  }

  /** The trace of a commit with one kept file whose review call returns. */
  lemma CommitTraceOneFile(sha: string, f: FileChange, prompt: string, complete: string -> Option<string>, review: string)
    requires complete(prompt) == Some(review)
    ensures CommitTrace(sha, [f], prompt, complete)
         == Run([ListCommits, FetchFiles(sha), FetchContent(sha, f.filename), Generate(prompt), Post(ReviewBanner + review)],
                Finished)
  {
    assert Map([f], FetchOf(sha)) == [FetchContent(sha, f.filename)];
  }

  /** The worked example: with files `a.py` and `b.md`, an include pattern
      that matches only `a.py`, and a failing fetch of `a.py`, the run fetches
      `a.py` alone, builds the prompt from empty content, and still requests
      and posts a review. */
  lemma IncludeFilteredFailedFetch(host: Host, settings: Settings, wording: Template, search: (string, string) -> bool,
                                   complete: string -> Option<string>, sha: string, review: string)
    requires host.commits == [sha]
    requires host.changedFiles(sha) == [FileChange("a.py", "modified"), FileChange("b.md", "modified")]
    requires host.fileContent(sha, "a.py").None?
    requires Truthy(settings.includePattern) && !Truthy(settings.excludePattern)
    requires search(settings.includePattern.value, "a.py") && !search(settings.includePattern.value, "b.md")
    requires complete(BuildPrompt(wording, "", settings.language, settings.customPrompt)) == Some(review)
    ensures ProcessFiles(host, settings, wording, search, complete) == Run(
              [ListCommits, FetchFiles(sha), FetchContent(sha, "a.py"),
               Generate(BuildPrompt(wording, "", settings.language, settings.customPrompt)),
               Post(ReviewBanner + review)],
              Finished)
  {
    var files := host.changedFiles(sha);
    KeepFirstOfTwo(files, settings.includePattern, settings.excludePattern, search);
    CombineOne(sha, files[0], host.fileContent);
    assert CommitContent(host, sha, settings, search) == "";
    FilesRunIsCommitTrace(host, settings, wording, search, complete);
    CommitTraceOneFile(sha, files[0], BuildPrompt(wording, "", settings.language, settings.customPrompt), complete, review);
  }

  // ---------------------------------------------------------------------
  // Patch mode

  /** `analyze_patch`: one review of the combined diff blocks. */
  function AnalyzePatch(patch: string, settings: Settings, wording: Template, complete: string -> Option<string>): (run: Run)
    ensures Count(run.effects, IsGenerate) == 1
    ensures run.outcome == Finished <==> Count(run.effects, IsPost) == 1
  {
    ReviewAndPost(BuildPrompt(wording, PatchContent(patch), settings.language, settings.customPrompt), complete)
  }

  /** `process_patch`: an empty patch gets the fixed notice and no review. */
  function ProcessPatch(host: Host, settings: Settings, wording: Template, complete: string -> Option<string>): (run: Run)
    ensures |run.effects| >= 2 && run.effects[0] == FetchPatch
  {
    if host.patch == "" then
      Run([FetchPatch, Post(NoChangesNotice)], Finished)
    else
      var r := AnalyzePatch(host.patch, settings, wording, complete);
      Run([FetchPatch] + r.effects, r.outcome)
  }

  /** An empty patch: exactly one post, the fixed notice, and no completion call. */
  lemma EmptyPatch(host: Host, settings: Settings, wording: Template, complete: string -> Option<string>)
    requires host.patch == ""
    ensures var run := ProcessPatch(host, settings, wording, complete);
            && Count(run.effects, IsGenerate) == 0
            && Count(run.effects, IsPost) == 1
            && run.effects[|run.effects| - 1] == Post(NoChangesNotice)
            && run.outcome == Finished
  {
  }

  /** The trace of a non-empty patch once its prompt is known. */
  lemma PatchTraceShape(prompt: string, complete: string -> Option<string>)
    ensures var review := ReviewAndPost(prompt, complete);
            var effects := [FetchPatch] + review.effects;
            && effects[1] == Generate(prompt)
            && Count(effects, IsGenerate) == 1
            && Count(effects, IsPost) == (if review.outcome == Finished then 1 else 0)
            && (review.outcome == Finished ==> effects[|effects| - 1] == Post(ReviewBanner + complete(prompt).value))
            && Count(effects, IsFetch) == 0
  {
    var review := ReviewAndPost(prompt, complete);
    CountAppend([FetchPatch], review.effects, IsGenerate);
    CountAppend([FetchPatch], review.effects, IsPost);
    CountAppend([FetchPatch], review.effects, IsFetch);
  }

  /** A non-empty patch: exactly one completion call, on the prompt for the
      combined diff blocks, followed by the review post exactly when the call
      returns. */
  lemma PatchRunShape(host: Host, settings: Settings, wording: Template, complete: string -> Option<string>)
    requires host.patch != ""
    ensures var run := ProcessPatch(host, settings, wording, complete);
            var prompt := BuildPrompt(wording, PatchContent(host.patch), settings.language, settings.customPrompt);
            && run.effects[1] == Generate(prompt)
            && Count(run.effects, IsGenerate) == 1
            && Count(run.effects, IsPost) == (if run.outcome == Finished then 1 else 0)
            && (run.outcome == Finished <==> complete(prompt).Some?)
            && (run.outcome == Finished ==> run.effects[|run.effects| - 1] == Post(ReviewBanner + complete(prompt).value))
            && Count(run.effects, IsFetch) == 0
  {
    PatchTraceShape(BuildPrompt(wording, PatchContent(host.patch), settings.language, settings.customPrompt), complete);
  }
}
