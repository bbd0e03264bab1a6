/** The file-set filter of files mode (src/main.py:167-173): an include
    pattern keeps only the files whose name it matches, then an exclude
    pattern drops the files whose name it matches. Either step is skipped
    when its pattern is absent or empty. The regular-expression engine is
    not modelled: `search(pattern, name)` stands for
    `re.search(pattern, name) is not None`. */
module FileFilter {
  import opened Sequences
  import opened Options

  /** One changed file of a commit, as the source-control host lists it. */
  datatype FileChange = FileChange(filename: string, status: string)

  /** The include test of src/main.py:169 as a function value. */
  function IncludeTest(pattern: string, search: (string, string) -> bool): FileChange -> bool {
    (f: FileChange) => search(pattern, f.filename)
  }

  /** The exclude test of src/main.py:173 as a function value. */
  function ExcludeTest(pattern: string, search: (string, string) -> bool): FileChange -> bool {
    (f: FileChange) => !search(pattern, f.filename)
  }

  /** The include step: with a non-empty include pattern, keep the files whose name it matches. */
  function IncludeStep(files: seq<FileChange>, incl: Option<string>, search: (string, string) -> bool): seq<FileChange> {
    if Truthy(incl) then Select(files, IncludeTest(incl.value, search)) else files
  }

  /** The exclude step: with a non-empty exclude pattern, drop the files whose name it matches. */
  function ExcludeStep(files: seq<FileChange>, excl: Option<string>, search: (string, string) -> bool): seq<FileChange> {
    if Truthy(excl) then Select(files, ExcludeTest(excl.value, search)) else files
  }

  /** A file name passes both patterns: it matches the include pattern when
      there is one, and does not match the exclude pattern when there is one. */
  predicate Admits(incl: Option<string>, excl: Option<string>, search: (string, string) -> bool, name: string) {
    && (Truthy(incl) ==> search(incl.value, name))
    && (Truthy(excl) ==> !search(excl.value, name))
  }

  /** `Admits` as a function value, for the single-pass reference filter. */
  function AdmitTest(incl: Option<string>, excl: Option<string>, search: (string, string) -> bool): FileChange -> bool {
    (f: FileChange) => Admits(incl, excl, search, f.filename)
  }

  /** Include first, then exclude. */
  function FilterFiles(files: seq<FileChange>, incl: Option<string>, excl: Option<string>,
                       search: (string, string) -> bool): (kept: seq<FileChange>)
    ensures forall i :: 0 <= i < |kept| ==> kept[i] in files && Admits(incl, excl, search, kept[i].filename)
    ensures !Truthy(incl) && !Truthy(excl) ==> kept == files
  {
    ExcludeStep(IncludeStep(files, incl, search), excl, search)
  }

  /** The two-step filter equals one pass that keeps exactly the admitted
      files, in their original order. */
  lemma FilterIsSinglePass(files: seq<FileChange>, incl: Option<string>,
                            excl: Option<string>, search: (string, string) -> bool)
    ensures FilterFiles(files, incl, excl, search) == Select(files, AdmitTest(incl, excl, search))
  {
    var admit := AdmitTest(incl, excl, search);
    if Truthy(incl) && Truthy(excl) {
      var inc := IncludeTest(incl.value, search);
      var exc := ExcludeTest(excl.value, search);
      SelectSelect(files, inc, exc);
      SelectSame(files, x => inc(x) && exc(x), admit);
    } else if Truthy(incl) {
      SelectSame(files, IncludeTest(incl.value, search), admit);
    } else if Truthy(excl) {
      SelectSame(files, ExcludeTest(excl.value, search), admit);
    } else {
      SelectAll(files, admit);
    }
  }

  /** Every input file that passes both patterns is kept. */
  lemma FilterKeepsAdmitted(files: seq<FileChange>, incl: Option<string>, excl: Option<string>,
                            search: (string, string) -> bool)
    ensures forall i :: 0 <= i < |files| && Admits(incl, excl, search, files[i].filename)
                        ==> files[i] in FilterFiles(files, incl, excl, search)
  {
    FilterIsSinglePass(files, incl, excl, search);
    SelectKeeps(files, AdmitTest(incl, excl, search));
  }

  /** The filter result is an order-preserving subsequence of the input. */
  lemma FilterIsSubsequence(files: seq<FileChange>, incl: Option<string>, excl: Option<string>,
                            search: (string, string) -> bool)
    ensures IsSubsequence(FilterFiles(files, incl, excl, search), files)
  {
    FilterIsSinglePass(files, incl, excl, search);
    SelectIsSubsequence(files, AdmitTest(incl, excl, search));
  }

  /** Filtering distributes over concatenation: the filter never reorders
      files across the input. */
  lemma FilterAppend(a: seq<FileChange>, b: seq<FileChange>, incl: Option<string>, excl: Option<string>,
                     search: (string, string) -> bool)
    ensures FilterFiles(a + b, incl, excl, search)
         == FilterFiles(a, incl, excl, search) + FilterFiles(b, incl, excl, search)
  {
    FilterIsSinglePass(a + b, incl, excl, search);
    FilterIsSinglePass(a, incl, excl, search);
    FilterIsSinglePass(b, incl, excl, search);
    SelectAppend(a, b, AdmitTest(incl, excl, search));
  }

  /** Filtering twice with the same patterns gives the same result as once. */
  lemma FilterIdempotent(files: seq<FileChange>, incl: Option<string>, excl: Option<string>,
                         search: (string, string) -> bool)
    ensures var once := FilterFiles(files, incl, excl, search);
            FilterFiles(once, incl, excl, search) == once
  {
    var once := FilterFiles(files, incl, excl, search);
    FilterIsSinglePass(once, incl, excl, search);
    SelectAll(once, AdmitTest(incl, excl, search));
  }
}
