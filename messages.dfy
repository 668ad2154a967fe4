/** The chat messages both conversation-memory scripts keep: LangChain's `HumanMessage` and
    `AIMessage`, reduced to their `content`. */
module Messages {

  datatype Msg = Human(content: string) | AI(content: string)

  /** `chain.invoke({"history": history, "input": text})`: the prompt template, the model and
      the output parser, seen as a function from the history and the input to the reply. */
  type Chain = (seq<Msg>, string) -> string
}
