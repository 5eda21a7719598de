/** The chat-model interface the answer-side code shares: a message list, a
    prompt template pair and the provider setting every caller checks. */
module Chat {
  import opened Wrappers

  datatype Message = Message(role: string, content: string)

  /** A loaded prompt: the system text and the user template. */
  datatype Prompt = Prompt(system: string, user: string)

  /** `section.get("provider", "ollama") == "ollama"`: an absent key means
      Ollama, a key present with the value None does not. */
  predicate IsOllama(provider: Field<string>) {
    provider.GetOrNull("ollama") == Some("ollama")
  }
}
