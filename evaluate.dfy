/** The LLM-as-judge evaluation of a generated answer: the provider check,
    the single user message, and the verdict derived from the model's
    structured reply. The renderer and the chat model are parameters. */
module Evaluate {
  import opened Wrappers
  import opened Text
  import opened Chat

  /** The structured reply; a missing field is None. */
  datatype EvalReply = EvalReply(result: Option<string>, reasoning: Option<string>)

  /** The dictionary `qa_evaluate` returns. */
  datatype Verdict = Verdict(result: string, isSame: bool, reasoning: Option<string>)

  /** `s.split()[0]` for a string that does not start with whitespace: the
      characters up to the first whitespace. */
  function FirstToken(s: string): (t: string)
    ensures |t| <= |s| && t == s[..|t|]
    ensures forall i :: 0 <= i < |t| ==> !IsSpace(t[i])
    ensures |t| == |s| || IsSpace(s[|t|])
  {
    if |s| == 0 || IsSpace(s[0]) then "" else [s[0]] + FirstToken(s[1..])
  }

  /** The verdict read off the reply. The first token holds no whitespace,
      so the source's `.strip("\n")` on it changes nothing. */
  function VerdictOf(reply: EvalReply): Verdict {
    var result := Strip(reply.result.GetOr(""));
    var first := if result != "" then Lower(FirstToken(result)) else "";
    Verdict(result, first == "true", reply.reasoning)
  }

  /** The verdict keeps the stripped result and the reasoning, and the
      answer is judged the same exactly when the result starts with the
      word "true", in any letter case, followed by whitespace or nothing. */
  lemma VerdictMeaning(reply: EvalReply)
    ensures VerdictOf(reply).result == Strip(reply.result.GetOr(""))
    ensures VerdictOf(reply).reasoning == reply.reasoning
    ensures VerdictOf(reply).result == "" ==> !VerdictOf(reply).isSame
    ensures var r := VerdictOf(reply).result;
            VerdictOf(reply).isSame <==>
              |r| >= 4 && Lower(r[..4]) == "true" && (|r| == 4 || IsSpace(r[4]))
  {
    var r := VerdictOf(reply).result;
    if r != "" {
      var t := FirstToken(r);
      if Lower(t) == "true" {
        assert |t| == 4 && t == r[..4];
      }
      if |r| >= 4 && Lower(r[..4]) == "true" && (|r| == 4 || IsSpace(r[4])) {
        forall i | 0 <= i < 4
          ensures !IsSpace(r[i])
        {
          assert Lower(r[..4])[i] == LowerChar(r[i]);
        }
        FirstTokenOf(r, 4);
      }
    }
  }

  /** A prefix without whitespace that is followed by whitespace or the end
      is the first token. */
  lemma {:induction false} FirstTokenOf(s: string, n: nat)
    requires n <= |s|
    requires forall i :: 0 <= i < n ==> !IsSpace(s[i])
    requires n == |s| || IsSpace(s[n])
    ensures FirstToken(s) == s[..n]
  {
    if n > 0 {
      FirstTokenOf(s[1..], n - 1);
      assert s[..n] == [s[0]] + s[1..][..n - 1];
    }
  }

  /** The request: one user message holding the rendered template. */
  function EvalMessages(prompt: Prompt, render: (string, string, string, string) -> string,
                        question: string, groundTruth: string, answer: string): seq<Message>
  {
    [Message("user", render(prompt.user, question, groundTruth, answer))]
  }

  /** `qa_evaluate(question, ground_truth, generated_answer)`, given the
      `generate` section's provider and model, the prompt, its renderer and
      the structured chat call. */
  function QaEvaluate(question: string, groundTruth: string, answer: string,
                      provider: Field<string>, model: Field<string>, prompt: Prompt,
                      render: (string, string, string, string) -> string,
                      chat: (Option<string>, seq<Message>) -> EvalReply): (r: Result<Verdict, string>)
    ensures r.Err? <==> !IsOllama(provider)
    ensures r.Ok? ==>
              var reply := chat(model.GetOrNull("qwen3:8b"),
                                EvalMessages(prompt, render, question, groundTruth, answer));
              r.value == VerdictOf(reply)
  {
    if IsOllama(provider) then
      var messages := EvalMessages(prompt, render, question, groundTruth, answer);
      Ok(VerdictOf(chat(model.GetOrNull("qwen3:8b"), messages)))
    else
      Err("NotImplementedError")
  }
}
