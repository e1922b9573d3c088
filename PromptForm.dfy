/** The prompt form (`src/components/ImagePromptForm.tsx`): the `prompt` state,
    the blank-prompt guard of `handleSubmit`, the suggestion buttons and the
    shortened labels they show. `onGenerate` is the caller's callback; the
    model records the prompts handed to it and the error toasts shown. */
module PromptForm {

  const PromptSuggestions: seq<string> := [
    "A futuristic city with flying cars and neon lights",
    "A serene landscape with mountains and a lake at sunset",
    "A magical forest with glowing mushrooms and fantasy creatures",
    "A cyberpunk portrait of a robot with human features",
    "An underwater scene with colorful coral reefs and exotic fish"
  ]

  const EmptyPromptToast := "Please enter a prompt"
  const GenerateFailedToast := "Failed to generate image. Please try again."

  /** Labels longer than this are cut. */
  const LabelLimit := 30
  const Ellipsis := "..."

  /** The WhiteSpace and LineTerminator code points of ECMAScript, which
      `String.prototype.trim` removes from both ends. */
  predicate IsJsWhitespace(c: char)
  {
    c == '\t' || c == '\n' || c == '\U{000B}' || c == '\U{000C}' || c == '\r' || c == ' '
    || c == '\U{00A0}' || c == '\U{1680}' || ('\U{2000}' <= c <= '\U{200A}')
    || c == '\U{2028}' || c == '\U{2029}' || c == '\U{202F}' || c == '\U{205F}'
    || c == '\U{3000}' || c == '\U{FEFF}'
  }

  /** The number of whitespace characters `s` starts with. */
  function LeadingSpace(s: string): (n: nat)
    ensures n <= |s|
    ensures forall i :: 0 <= i < n ==> IsJsWhitespace(s[i])
    ensures n < |s| ==> !IsJsWhitespace(s[n])
  {
    if s == [] || !IsJsWhitespace(s[0]) then 0 else 1 + LeadingSpace(s[1..])
  }

  /** The number of whitespace characters `s` ends with. */
  function TrailingSpace(s: string): (n: nat)
    ensures n <= |s|
    ensures forall i :: |s| - n <= i < |s| ==> IsJsWhitespace(s[i])
    ensures n < |s| ==> !IsJsWhitespace(s[|s| - n - 1])
  {
    if s == [] || !IsJsWhitespace(s[|s| - 1]) then 0 else 1 + TrailingSpace(s[..|s| - 1])
  }

  /** `String.prototype.trim`. */
  function Trim(s: string): (r: string)
    ensures exists i, j :: 0 <= i <= j <= |s| && r == s[i..j]
              && forall k :: (0 <= k < i || j <= k < |s|) ==> IsJsWhitespace(s[k])
    ensures r == [] || (!IsJsWhitespace(r[0]) && !IsJsWhitespace(r[|r| - 1]))
  {
    var i := LeadingSpace(s);
    var a := s[i..];
    var j := i + |a| - TrailingSpace(a);
    assert a[..|a| - TrailingSpace(a)] == s[i..j];
    assert forall k :: j <= k < |s| ==> s[k] == a[k - i];
    a[..|a| - TrailingSpace(a)]
  }

  /** `!prompt.trim()`: the prompt is empty or all whitespace. */
  predicate IsBlank(prompt: string)
  {
    Trim(prompt) == ""
  }

  /** The guard rejects exactly the prompts made only of whitespace (the empty one included). */
  lemma BlankIffAllWhitespace(prompt: string)
    ensures IsBlank(prompt) <==> forall i :: 0 <= i < |prompt| ==> IsJsWhitespace(prompt[i])
  {
  }

  /** The text of a suggestion button. */
  function SuggestionLabel(suggestion: string): (text: string)
    ensures |suggestion| <= LabelLimit ==> text == suggestion
    ensures |suggestion| > LabelLimit ==>
              |text| == LabelLimit + |Ellipsis| && text[..LabelLimit] == suggestion[..LabelLimit]
              && text[LabelLimit..] == Ellipsis
  {
    if |suggestion| > LabelLimit then suggestion[..LabelLimit] + Ellipsis else suggestion
  }

  /** Every built-in suggestion is long enough to be shortened, to 33 characters. */
  lemma SuggestionsAreShortened()
    ensures forall s :: s in PromptSuggestions ==> |s| > LabelLimit && |SuggestionLabel(s)| == 33
  {
  }

  /** The component's state and what it has done so far. */
  class PromptFormState {
    var prompt: string
    /** The prompts handed to `onGenerate`, in order. */
    var generateCalls: seq<string>
    /** The error toasts shown, in order. */
    var errorToasts: seq<string>

    constructor ()
      ensures prompt == "" && generateCalls == [] && errorToasts == []
    {
      prompt := "";
      generateCalls := [];
      errorToasts := [];
    }

    /** The textarea's `onChange`. */
    method OnChange(value: string)
      modifies this`prompt
      ensures prompt == value
    {
      prompt := value;
    }

    /** `usePromptSuggestion`: the prompt becomes exactly the suggestion. */
    method UsePromptSuggestion(suggestion: string)
      modifies this`prompt
      ensures prompt == suggestion
    {
      prompt := suggestion;
    }

    /** `handleSubmit`. `generateFails` is whether `onGenerate` rejects; its
        error is caught and shown, never rethrown. */
    method HandleSubmit(generateFails: bool)
      modifies this`generateCalls, this`errorToasts
      ensures IsBlank(prompt) ==>
                generateCalls == old(generateCalls) && errorToasts == old(errorToasts) + [EmptyPromptToast]
      ensures !IsBlank(prompt) ==> generateCalls == old(generateCalls) + [prompt]
      ensures !IsBlank(prompt) && !generateFails ==> errorToasts == old(errorToasts)
      ensures !IsBlank(prompt) && generateFails ==> errorToasts == old(errorToasts) + [GenerateFailedToast]
    {
      if Trim(prompt) == "" {
        errorToasts := errorToasts + [EmptyPromptToast];
        return;
      }
      generateCalls := generateCalls + [prompt];
      if generateFails {
        errorToasts := errorToasts + [GenerateFailedToast];
      }
    }
  }
}
