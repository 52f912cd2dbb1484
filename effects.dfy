/**
 * The outside world the booking flow talks to, reduced to what the flow
 * can observe: whether a call succeeded (and the text of its exception if
 * not), and the sequence of calls it made, in order.
 */
module Effects {
  import opened Wrappers

  /** How a call to a collaborator ended: normally, or raising an exception whose `str(e)` is `error`. */
  datatype Outcome = Succeeds | Fails(error: string)

  /** What the retrieval chain's `run(query)` did: an answer, or an exception. */
  datatype QaOutcome = QaAnswer(text: string) | QaFails(error: string)

  /**
   * What `agent_executor.invoke(...)` did: a result dictionary, whose
   * `"output"` entry may be absent, or an exception.
   */
  datatype AgentOutcome = AgentOutput(output: Option<string>) | AgentFails(error: string)

  /** One observable call to a collaborator. */
  datatype Call =
    | AppendRow(name: string, phone: string, email: string, date: string)   // append_to_google_sheet
    | SendEmail(to: string, name: string, date: string)                     // send_confirmation_email
    | RunQa(question: string)                                              // qa_chain.run
    | ShowError(message: string)                                           // st.error
    | InvokeAgent(input: string)                                           // agent_executor.invoke
}
