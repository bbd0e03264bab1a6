/** The review prompt sent to the completion service (`create_review_prompt`,
    src/main.py:225-276). A non-empty custom prompt replaces the whole default
    template. Either way, the reviewed content sits between a "### Code"
    fence and a closing fence.

    The prompt is built from a `Template` holding the four fixed passages of
    the default template, and the properties are proved for every template:
    none of them depends on the wording of those passages. `CreateReviewPrompt`
    uses `StandardTemplate`, which holds the source's wording verbatim. The
    long texts are written as short concatenated pieces. */
module PromptBuilder {
  import opened Options
  import opened Text
  import opened Sequences

  /** The opening of the code block the content is placed in. */
  const CodeOpen := "### Code\n```"

  /** The closing of that code block. */
  const CodeClose := "```\n\n"

  /** The instruction that names the review language is this lead, the language, and this end. */
  const LanguageLead := "Write this code review in the following "
  const LanguageEnd := ":\n\n"

  /** The fixed opening of the default template. In the source, the first
      sentence runs into the second without a space. */
  const DefaultIntro :=
    "Please review the following code for " + "clarity, efficiency, and adherence to " + "best practices."
    + "Identify any areas for improvement, " + "suggest specific optimizations, and " + "note potential bugs or security " + "vulnerabilities. "
    + "Additionally, provide suggestions for " + "how to address the identified issues, " + "with a focus on maintainability and " + "scalability. "
    + "Include examples of code where " + "relevant. Use markdown formatting for " + "your response:\n\n"

  const OnlyReviewLine :=
    "Do not write the code or guidelines " + "in the review. Only write the review " + "itself.\n\n"

  /** The rubric of the default template. */
  const ReviewGuidelines :=
    "### Review Guidelines\n"
    + "1. **Clarity**: Is the code easy to " + "understand?\n"
    + "2. **Efficiency**: Are there any " + "performance improvements?\n"
    + "3. **Best Practices**: Does the code " + "follow standard coding conventions?\n"
    + "4. **Bugs/Security**: Are there any " + "potential bugs or security " + "vulnerabilities?\n"
    + "5. **Maintainability**: Is the code " + "easy to maintain and scale?\n\n"

  /** The worked example that closes the default template. */
  const ReviewExample :=
    "### Review Example\n"
    + "1. **Issue**: The variable names are " + "not descriptive.\n"
    + "   **Suggestion**: Use more descriptive " + "variable names that reflect their " + "purpose. For example:\n"
    + "   ```python\n"
    + "   # Instead of this:\n"
    + "   x = 5\n"
    + "   # Use this:\n"
    + "   item_count = 5\n"
    + "   ```\n"
    + "2. **Issue**: There is a potential SQL " + "injection vulnerability.\n"
    + "   **Suggestion**: Use parameterized " + "queries to prevent SQL injection. For " + "example:\n"
    + "   ```python\n"
    + "   # Instead of this:\n"
    + "   cursor.execute(f'SELECT * FROM users " + "WHERE username = (username)')\n"
    + "   # Use this:\n"
    + "   cursor.execute('SELECT * FROM users " + "WHERE username = %s', (username,))\n"
    + "   ```"

  /** The fixed passages of the prompt: the four passages of the default
      template, the code-block fences and the two halves of the language
      instruction. */
  datatype Template = Template(intro: string, onlyReview: string, guidelines: string, example: string,
                               codeOpen: string, codeClose: string, languageLead: string, languageEnd: string)

  /** The source's passages, word for word. */
  const StandardTemplate := Template(DefaultIntro, OnlyReviewLine, ReviewGuidelines, ReviewExample,
                                     CodeOpen, CodeClose, LanguageLead, LanguageEnd)

  /** The instruction that names the language the review is written in. The
      language can be read back from between the fixed halves. */
  function LanguageLine(t: Template, language: string): (line: string)
    ensures StartsWith(line, t.languageLead) && EndsWith(line, t.languageEnd)
    ensures |t.languageLead| + |t.languageEnd| <= |line|
    ensures line[|t.languageLead|..|line| - |t.languageEnd|] == language
  {
    var line := t.languageLead + language + t.languageEnd;
    assert line[|t.languageLead|..|line| - |t.languageEnd|] == language;
    line
  }

  /** What precedes the code block: the custom text and a newline when a
      non-empty custom prompt is given, otherwise the introduction, the
      language line and the review-only instruction. */
  function Preamble(t: Template, language: string, customPrompt: Option<string>): string {
    if Truthy(customPrompt) then customPrompt.value + "\n"
    else t.intro + LanguageLine(t, language) + t.onlyReview
  }

  /** What follows the code block: the language line after a custom prompt,
      otherwise the rubric and the worked example. */
  function Postscript(t: Template, language: string, customPrompt: Option<string>): string {
    if Truthy(customPrompt) then LanguageLine(t, language) else t.guidelines + t.example
  }

  /** The prompt for `content`, written in `language`, with the fixed
      passages taken from `t`: both branches of the source put the content
      in a code block between a preamble and a postscript. */
  function BuildPrompt(t: Template, content: string, language: string, customPrompt: Option<string>): string {
    Preamble(t, language, customPrompt) + t.codeOpen + content + t.codeClose + Postscript(t, language, customPrompt)
  }

  /** `create_review_prompt(content, language, custom_prompt)`: the prompt
      with the source's wording, from which the content can be read back. */
  function CreateReviewPrompt(content: string, language: string, customPrompt: Option<string>): (prompt: string)
    ensures RecoverContent(StandardTemplate, prompt, language, customPrompt) == Some(content)
  {
    ContentRoundTrip(StandardTemplate, content, language, customPrompt);
    BuildPrompt(StandardTemplate, content, language, customPrompt)
  }

  /** Everything the prompt holds before the content. It does not depend on the content. */
  function PromptHead(t: Template, language: string, customPrompt: Option<string>): string {
    Preamble(t, language, customPrompt) + t.codeOpen
  }

  /** Everything the prompt holds after the content. It does not depend on the content. */
  function PromptTail(t: Template, language: string, customPrompt: Option<string>): string {
    t.codeClose + Postscript(t, language, customPrompt)
  }

  /** With a non-empty custom prompt, the prompt is exactly the custom
      text, a newline, the code block and the language instruction. */
  lemma CustomPromptText(t: Template, content: string, language: string, customPrompt: Option<string>)
    requires Truthy(customPrompt)
    ensures BuildPrompt(t, content, language, customPrompt)
         == customPrompt.value + "\n" + t.codeOpen + content + t.codeClose
            + t.languageLead + language + t.languageEnd
  {
  }

  /** The same with the source's wording. */
  lemma StandardCustomPrompt(content: string, language: string, customPrompt: Option<string>)
    requires Truthy(customPrompt)
    ensures CreateReviewPrompt(content, language, customPrompt)
         == customPrompt.value + "\n" + "### Code\n```" + content + "```\n\n"
            + "Write this code review in the following " + language + ":\n\n"
  {
    CustomPromptText(StandardTemplate, content, language, customPrompt);
  }

  /** A non-empty custom prompt opens the prompt, followed by the code
      block, and the language instruction closes it. Otherwise the prompt
      opens with the introduction, the language instruction, the
      review-only instruction and the code block, and closes with the code
      block's end, the rubric and the worked example. */
  lemma PromptShape(t: Template, content: string, language: string, customPrompt: Option<string>)
    ensures var prompt := BuildPrompt(t, content, language, customPrompt);
            var line := LanguageLine(t, language);
            && (Truthy(customPrompt) ==>
                  StartsWith(prompt, customPrompt.value + "\n" + t.codeOpen + content)
                  && EndsWith(prompt, t.codeClose + line))
            && (!Truthy(customPrompt) ==>
                  StartsWith(prompt, t.intro + line + t.onlyReview + t.codeOpen + content)
                  && EndsWith(prompt, t.codeClose + t.guidelines + t.example))
  {
    var front := Preamble(t, language, customPrompt) + t.codeOpen + content;
    var back := t.codeClose + Postscript(t, language, customPrompt);
    assert BuildPrompt(t, content, language, customPrompt) == front + back;
    AppendEnds(front, back);
  }

  /** Every prompt is the content framed by a head and a tail that depend
      only on the template, the language and the custom prompt. */
  lemma PromptFrame(t: Template, content: string, language: string, customPrompt: Option<string>)
    ensures BuildPrompt(t, content, language, customPrompt)
         == PromptHead(t, language, customPrompt) + content + PromptTail(t, language, customPrompt)
  {
  }

  /** The content is embedded verbatim inside the code block, right after the preamble. */
  lemma CodeBlockEmbedded(t: Template, content: string, language: string, customPrompt: Option<string>)
    ensures var prompt := BuildPrompt(t, content, language, customPrompt);
            var block := t.codeOpen + content + t.codeClose;
            var k := |Preamble(t, language, customPrompt)|;
            k + |block| <= |prompt| && prompt[k..k + |block|] == block
  {
    var pre := Preamble(t, language, customPrompt);
    var block := t.codeOpen + content + t.codeClose;
    var post := Postscript(t, language, customPrompt);
    assert BuildPrompt(t, content, language, customPrompt) == pre + block + post;
    MiddleSlice(pre, block, post);
  }

  /** The language instruction is present: in the default template right
      after the introduction, ahead of the code block; after a custom prompt
      at the very end. */
  lemma LanguageLineEmbedded(t: Template, content: string, language: string, customPrompt: Option<string>)
    ensures var prompt := BuildPrompt(t, content, language, customPrompt);
            var line := LanguageLine(t, language);
            && (!Truthy(customPrompt) ==>
                  |t.intro| + |line| <= |prompt| && prompt[|t.intro|..|t.intro| + |line|] == line)
            && (Truthy(customPrompt) ==> EndsWith(prompt, line))
  {
    var line := LanguageLine(t, language);
    var prompt := BuildPrompt(t, content, language, customPrompt);
    if !Truthy(customPrompt) {
      var rest := t.onlyReview + t.codeOpen + content + t.codeClose + t.guidelines + t.example;
      assert prompt == t.intro + line + rest;
      MiddleSlice(t.intro, line, rest);
    } else {
      var front := Preamble(t, language, customPrompt) + t.codeOpen + content + t.codeClose;
      assert prompt == front + line;
      AppendEnds(front, line);
    }
  }

  /** Reads the content back out of a prompt built with the given template,
      language and custom prompt, or `None` when the text is not such a prompt. */
  function RecoverContent(t: Template, prompt: string, language: string, customPrompt: Option<string>): (content: Option<string>)
    ensures content.Some? ==> |content.value| <= |prompt|
  {
    var head := PromptHead(t, language, customPrompt);
    var tail := PromptTail(t, language, customPrompt);
    if |head| + |tail| <= |prompt| && StartsWith(prompt, head) && EndsWith(prompt, tail) then
      Some(prompt[|head|..|prompt| - |tail|])
    else
      None
  }

  /** Round trip: the content of a prompt can be read back out of it. */
  lemma ContentRoundTrip(t: Template, content: string, language: string, customPrompt: Option<string>)
    ensures RecoverContent(t, BuildPrompt(t, content, language, customPrompt), language, customPrompt) == Some(content)
  {
    var head := PromptHead(t, language, customPrompt);
    var tail := PromptTail(t, language, customPrompt);
    var prompt := BuildPrompt(t, content, language, customPrompt);
    PromptFrame(t, content, language, customPrompt);
    assert prompt[..|head|] == head;
    assert prompt[|prompt| - |tail|..] == tail;
    assert prompt[|head|..|prompt| - |tail|] == content;
  }

  /** The converse: whatever is read back out of a text rebuilds that text. */
  lemma RecoveredContentRebuilds(t: Template, prompt: string, language: string, customPrompt: Option<string>)
    ensures var content := RecoverContent(t, prompt, language, customPrompt);
            content.Some? ==> BuildPrompt(t, content.value, language, customPrompt) == prompt
  {
    var head := PromptHead(t, language, customPrompt);
    var tail := PromptTail(t, language, customPrompt);
    var content := RecoverContent(t, prompt, language, customPrompt);
    if content.Some? {
      PromptFrame(t, content.value, language, customPrompt);
      assert prompt == prompt[..|head|] + prompt[|head|..|prompt| - |tail|] + prompt[|prompt| - |tail|..];
    }
  }

  /** Different contents give different prompts. */
  lemma PromptInjective(t: Template, c1: string, c2: string, language: string, customPrompt: Option<string>)
    ensures BuildPrompt(t, c1, language, customPrompt) == BuildPrompt(t, c2, language, customPrompt) ==> c1 == c2
  {
    ContentRoundTrip(t, c1, language, customPrompt);
    ContentRoundTrip(t, c2, language, customPrompt);
  }

  /** An empty custom prompt counts as no custom prompt, and a non-empty one
      makes the default template's passages irrelevant. */
  lemma CustomPromptTruthiness(t: Template, content: string, language: string, customPrompt: Option<string>,
                               intro: string, onlyReview: string, guidelines: string, example: string)
    ensures BuildPrompt(t, content, language, Some("")) == BuildPrompt(t, content, language, None)
    ensures var u := t.(intro := intro, onlyReview := onlyReview, guidelines := guidelines, example := example);
            Truthy(customPrompt) ==> BuildPrompt(t, content, language, customPrompt) == BuildPrompt(u, content, language, customPrompt)
  {
  }
}
