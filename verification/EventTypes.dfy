/** The kinds of workflow events, shared by the adapters that read them and the store that keeps them. */
module EventTypes {
  datatype EventType =
    | Unspecified | AgentStarted | CommandStarted | CommandCompleted | FileChanged | ApprovalRequired
    | InputRequired | ErrorOccurred | WorkflowCompleted | WorkflowStopped
}
