# Pull-request review pipeline: a Dafny model

This project models the content-aggregation core of a GitHub Action that asks
a chat-completion service to review a pull request and posts the answer as one
comment. The whole core lives in `src/main.py`. It has four parts:

- **Patch mode.** The unified-diff patch is split into per-file pieces before
  every line that starts with `diff --git `. Each non-blank piece is named by
  the destination path of its header line ("Unknown file" when there is
  none). Each piece becomes a markdown block, and the blocks are joined in
  order (`DiffSegmenter`, `DiffHeader`, `PatchAggregation`).
- **Files mode.** The changed files of the last commit go through an include
  pattern, then an exclude pattern. Each kept file's content is fetched, and
  a file whose fetch fails is skipped (`FileFilter`, `Orchestrator`).
- **Prompt builder.** A non-empty custom prompt replaces the default
  template. Either way, the combined content is embedded in a code block
  together with the review language (`PromptBuilder`).
- **Mode orchestration.** Each mode is a pure function from the answers of the
  source-control host and the completion service to the trace of calls the
  run makes: commit listing, file and patch fetches, the completion call and
  comment posts (`Orchestrator`).

Supporting modules:

- `Options`: optional values and Python truthiness.
- `Sequences`: order-preserving selection, mapping, counting, joining and the
  subsequence relation.
- `Text`: Python's `str.strip()` over the full set of characters for which
  `str.isspace()` holds.

Modelling choices:

- **Regular expressions.** The two patterns the core hard-codes are stated by
  what they accept. The split uses the lookahead `(?=^diff --git )` in
  multi-line mode. As in Python 3.7 and later, a match at offset 0 yields a
  leading empty piece. The name pattern is `^diff --git a\/.+ b\/(.+)`: its
  greedy first `.+` makes the captured name the text after the last ` b/` on
  the line that has at least one character on each side. On
  `diff --git a/x b/y b/` the name is `y b/`, because `(.+)` cannot be empty.
- **User patterns.** The user-supplied include and exclude patterns go to an
  uninterpreted `search(pattern, name)` parameter.
- **Collaborators.** The GitHub client, the OpenAI client and their failures
  are inputs:
  - the commit list;
  - the changed files of a commit;
  - the per-file content fetch, as an `Option`, `None` when the fetch raises;
  - the patch text;
  - the completion function, `None` when the call raises.

  The completion call's exception is not caught in the source, so that run
  ends `Aborted` with no post.
- **Prompt template.** The default template's fixed passages are a
  `Template` value. The prompt properties are proved for every template.
  `CreateReviewPrompt` uses `StandardTemplate`, which holds the source's
  wording verbatim. The orchestration functions take the template as a
  parameter too; the action itself runs them with `StandardTemplate`.

## Model

| member | source | states |
|---|---|---|
| Text.Strip | src/main.py:208 | the stripped text is no longer than the input, and neither starts nor ends with a whitespace character |
| Text.StripMargins | src/main.py:213 | stripping removes only whitespace: the input is the stripped text with a whitespace-only margin on each side |
| Text.StripEmptyIffAllSpace | src/main.py:208 | a piece is skipped exactly when every character of it is whitespace |
| DiffSegmenter.Split | src/main.py:204 | the pieces satisfy the lookahead-split conditions: each cut falls at a line start followed by `diff --git `, no such place lies strictly inside a piece, and a match at offset 0 gives a leading empty piece |
| DiffSegmenter.SplitLossless | src/main.py:204 | the pieces concatenate back to exactly the patch |
| DiffSegmenter.LookaheadSplitUnique | src/main.py:204 | any list of pieces meeting the split conditions is the split: the split is determined by the patch |
| DiffSegmenter.NoHeaderOnePiece | src/main.py:204 | a patch with no header line is a single piece equal to the whole patch |
| DiffSegmenter.PiecesStartAtHeaders | src/main.py:204 | every piece sits at its offset in the patch; every piece after the first starts with `diff --git ` at a line start of the patch; the first piece contains no such line start |
| DiffHeader.MatchLine | src/main.py:210 | a line matches exactly when it starts with `diff --git a/` and has a ` b/` with at least one character on each side; the group is the text after the last such ` b/`, is non-empty, ends the line and has no newline |
| DiffHeader.FileName | src/main.py:210-211 | the name of a piece is never empty and never spans more than one line |
| DiffHeader.FileNameIsFirstMatch | src/main.py:210-211 | the name is the group of the first matching line of the piece, and "Unknown file" when no line matches |
| PatchAggregation.DiffBlock | src/main.py:213 | no contract of its own: BlockOfOnePiece and NoHeaderPatch state which piece yields which block |
| PatchAggregation.PatchContent | src/main.py:204-213 | no contract of its own: CombineDiff shows that the source's split-and-accumulate loop computes it, and NoHeaderPatch gives its value for a patch without header lines |
| PatchAggregation.BlocksAppend | src/main.py:206-213 | the blocks of two runs of pieces are the blocks of the first followed by those of the second: no merging, reordering or deduplication |
| PatchAggregation.BlockOfOnePiece | src/main.py:208-213 | a whitespace-only piece contributes no block; any other piece contributes exactly the block with its name and stripped text in a `diff` fence |
| PatchAggregation.CombinePieces | src/main.py:206-213 | the accumulation loop returns the join of the blocks of the non-blank pieces, in piece order |
| PatchAggregation.CombineDiff | src/main.py:204-213 | splitting and then aggregating gives the joined blocks of the split's non-blank pieces |
| PatchAggregation.PieceNames | src/main.py:204-211 | the first piece is always named "Unknown file"; every other piece is named by the group of its own first line, or "Unknown file" when that line does not match |
| PatchAggregation.NoHeaderPatch | src/main.py:204-213 | a patch without header lines gives one "Unknown file" block holding the whole stripped patch, or nothing when it is only whitespace |
| FileFilter.FilterFiles | src/main.py:167-173 | every kept file comes from the input and passes the include pattern, if non-empty, and fails the exclude pattern, if non-empty; with neither pattern the input is returned unchanged |
| FileFilter.FilterKeepsAdmitted | src/main.py:167-173 | every input file that passes both patterns is kept |
| FileFilter.FilterIsSinglePass | src/main.py:167-173 | include-then-exclude equals one order-preserving pass that keeps exactly the files passing both patterns |
| FileFilter.FilterIsSubsequence | src/main.py:167-173 | the result is an order-preserving subsequence of the input |
| FileFilter.FilterAppend | src/main.py:167-173 | filtering distributes over concatenation of file lists |
| FileFilter.FilterIdempotent | src/main.py:167-173 | filtering a filtered list with the same patterns changes nothing |
| PromptBuilder.CreateReviewPrompt | src/main.py:225-276 | with the source's wording, the content can be read back out of the prompt for every language and custom prompt |
| PromptBuilder.BuildPrompt | src/main.py:237-276 | no contract of its own: PromptShape, CustomPromptText, CodeBlockEmbedded, ContentRoundTrip and PromptInjective state its properties for every template |
| PromptBuilder.LanguageLine | src/main.py:243 | the language instruction opens with the fixed wording, ends with a colon and a blank line, and holds exactly the language between the two |
| PromptBuilder.CustomPromptText | src/main.py:237-243 | with a non-empty custom prompt, the prompt is exactly the custom text, a newline, the code block around the content and the language instruction |
| PromptBuilder.StandardCustomPrompt | src/main.py:237-243 | the same text, spelled out with the source's fence and language wording |
| PromptBuilder.PromptShape | src/main.py:237-252 | with a non-empty custom prompt the prompt opens with the custom text and the code block and closes with the language line; otherwise it opens with the fixed introduction, the language line and the review-only instruction, and closes with the rubric and the worked example |
| PromptBuilder.PromptFrame | src/main.py:239-252 | every prompt is the content between a head and a tail that do not depend on the content |
| PromptBuilder.CodeBlockEmbedded | src/main.py:241-242 | the content, inside the `### Code` fence and its closing fence, appears verbatim right after the preamble |
| PromptBuilder.LanguageLineEmbedded | src/main.py:243-250 | the language line follows the introduction in the default template and ends a custom prompt |
| PromptBuilder.ContentRoundTrip | src/main.py:239-252 | the content can be read back out of the prompt |
| PromptBuilder.RecoveredContentRebuilds | src/main.py:239-252 | whatever is read back out of a text rebuilds that text |
| PromptBuilder.PromptInjective | src/main.py:239-252 | different contents give different prompts |
| PromptBuilder.CustomPromptTruthiness | src/main.py:237 | an empty custom prompt gives the default prompt; a non-empty one ignores the template |
| Orchestrator.FileBlock | src/main.py:180 | no contract of its own: CombineFilesIsFetchedBlocks states that each successfully fetched file contributes exactly this block |
| Orchestrator.CombineFiles | src/main.py:175-182 | no contract of its own: CombineFilesIsFetchedBlocks, CombineFilesAppend, FailedFileContributesNothing and AllFetchesFail state its properties |
| Orchestrator.CombineFilesIsFetchedBlocks | src/main.py:175-182 | the files-mode content is the join of the blocks of the successfully fetched files, in filter order |
| Orchestrator.CombineFilesAppend | src/main.py:175-182 | the content of two runs of files is the content of the first followed by that of the second |
| Orchestrator.FailedFileContributesNothing | src/main.py:178-182 | removing a file whose fetch fails does not change the content |
| Orchestrator.AllFetchesFail | src/main.py:175-182 | when every fetch fails, the content is empty |
| Orchestrator.ReviewAndPost | src/main.py:184-187 | one completion call on the prompt, then one post of the banner and the review exactly when the call returns |
| Orchestrator.AnalyzeCommitFiles | src/main.py:164-165 | the commit analysis starts by listing the commit's files |
| Orchestrator.ProcessFiles | src/main.py:113-118 | files mode starts by listing the commits, and with no commits that is the whole run |
| Orchestrator.ZeroCommits | src/main.py:114-118 | with no commits there is no fetch, no completion call and no post |
| Orchestrator.OnlyLastCommitMatters | src/main.py:120-128 | two hosts whose commit lists end with the same commit, and which agree on that commit's changed files and file contents, give the same run, whatever they answer about earlier commits |
| Orchestrator.CommitTraceFetches | src/main.py:165-179 | a files-mode trace touches only its commit and fetches exactly the given files in order |
| Orchestrator.CommitTraceReviewsOnce | src/main.py:184-187 | a files-mode trace has exactly one completion call on its prompt, and one final post exactly when the call returns |
| Orchestrator.FilesRunFetches | src/main.py:120-179 | with at least one commit, every host call concerns the last commit, and the content fetches name exactly the filtered files, in filter order |
| Orchestrator.FilesRunReviewsOnce | src/main.py:175-187 | with at least one commit there is exactly one completion call, on the prompt of the combined content, even when all fetches failed; there is one final post of the banner and review exactly when the call returns |
| Orchestrator.IncludeFilteredFailedFetch | src/main.py:165-187 | with files `a.py` and `b.md`, an include pattern matching only `a.py`, and a failing fetch of `a.py`, the run fetches `a.py` alone, reviews the empty content and posts the review |
| Orchestrator.AnalyzePatch | src/main.py:221-223 | patch analysis makes one completion call, and posts exactly when it finishes |
| Orchestrator.ProcessPatch | src/main.py:143-148 | patch mode starts by fetching the patch and always makes at least one more call |
| Orchestrator.EmptyPatch | src/main.py:144-147 | an empty patch gets exactly one post, the fixed notice, and no completion call |
| Orchestrator.PatchTraceShape | src/main.py:148 | a patch trace has its completion call right after the fetch, exactly one completion call, no file fetch, and one final post exactly when the call returns |
| Orchestrator.PatchRunShape | src/main.py:143-148 | a non-empty patch gets exactly one completion call, on the prompt of the aggregated diff, and one final post of the banner and review exactly when the call returns |

## Left out

- Configuration: `main` and `get_env_vars` (src/main.py:14-97). They cover environment access, client construction, type coercion and the invalid-mode error. They are configuration I/O, not pipeline logic.
- The GitHub and OpenAI client internals. They are network code. Their answers are model inputs and their calls are trace effects.
- Failures of collaborators other than the per-file content fetch and the completion call. An exception from listing commits, listing a commit's files, fetching the patch or posting a comment propagates out of the source unhandled. The model assumes these calls succeed.
- The regular-expression engine behind the user's include and exclude patterns, including the error raised for a malformed pattern. It is the parameter `search`.
- Logging calls. They have no effect on the trace.
- The per-piece exception handler (src/main.py:214-219). Nothing inside its `try` can raise on string input, so its comment post can never happen and is not in the trace.
- Text.IsSpace: follows the whitespace table of one Unicode version. A Python built on another Unicode version may differ on individual characters.
- The pull-request identifier. It only addresses the host, so every post goes to the same pull request, and the `Post` effect carries only the text.
- Determinism of the prompt builder and of the pipeline. It needs no lemma: every Dafny function is deterministic.
