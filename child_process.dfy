/**
 * `execSync` from Node's child_process: runs a shell command and returns its
 * standard output, or throws with a message when the command fails. The
 * external tool is an oracle: `respond` gives the outcome of a command from
 * the commands run before it, and `history` records every command run.
 */
module ChildProcess {

  /** What running a command yields: its standard output, or the message of
      the error thrown. */
  datatype ExecResult = Completed(stdout: string) | Failed(message: string)

  class Shell {
    const respond: (seq<string>, string) -> ExecResult
    var history: seq<string>

    constructor (respond: (seq<string>, string) -> ExecResult)
      ensures this.respond == respond
      ensures history == []
    {
      this.respond := respond;
      history := [];
    }

    /** Runs `command` once: the outcome is the oracle's answer given what ran
        before, and the command is appended to the history. */
    method ExecSync(command: string) returns (r: ExecResult)
      modifies this
      ensures r == respond(old(history), command)
      ensures history == old(history) + [command]
    {
      r := respond(history, command);
      history := history + [command];
    }
  }
}
