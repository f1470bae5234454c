/**
 * The `CardanoCLI` class: holds the network, era and directory settings and
 * runs `cardano-cli` through the shell to query UTXOs, total a balance, and
 * build, sign and submit a transaction.
 */
module Cli {
  import opened JsStrings
  import opened JsValues
  import opened UtxoTable
  import opened Commands
  import opened ChildProcess

  /** The constructor's options; an absent optional field is `None`. */
  datatype Options = Options(
    network: Network,
    magic: Option<int>,
    era: Era,
    txBasePath: Option<string>,
    keyBasePath: Option<string>)

  /** The object literals the transaction methods return. The key
      `singedFileId` is spelled that way by the program itself and is kept,
      since callers read the reply under that name. */
  datatype Reply =
    | Error(error: string)
    | FileId(fileId: string)
    | SingedFileId(singedFileId: string)
    | Empty

  /** The outcome of a method that lets the shell's exception escape. */
  datatype Outcome<T> = Returned(value: T) | Threw(message: string)

  const NoUtxoMessage := "At least one UTXO is required."

  class CardanoCli {
    var network: Network
    var magic: Option<int>
    var base: string
    var era: Era
    var txBasePath: Option<string>
    var keyBasePath: Option<string>

    /** The field initialisers run first; the options then overwrite both
        directories, with `undefined` when the option is absent. */
    constructor (options: Options)
      ensures network == options.network && magic == options.magic && era == options.era
      ensures base == "cardano-cli"
      ensures txBasePath == options.txBasePath && keyBasePath == options.keyBasePath
    {
      base := "cardano-cli";
      txBasePath := Some("./bin");
      keyBasePath := Some("./keys");
      network := options.network;
      magic := options.magic;
      era := options.era;
      txBasePath := options.txBasePath;
      keyBasePath := options.keyBasePath;
    }

    /** The settings the command builders read. */
    function Configuration(): Config
      reads this
    {
      Config(network, magic, base, era, txBasePath, keyBasePath)
    }

    /** getUTXOs: an empty address yields no records and runs nothing;
        otherwise the query runs once, a failure escapes as an exception, and
        the output is parsed line by line into records. */
    method GetUtxos(address: string, shell: Shell) returns (result: Outcome<seq<Utxo>>)
      modifies shell
      ensures address == "" ==> result == Returned([]) && shell.history == old(shell.history)
      ensures address != "" ==>
        var command := Command(QueryArgs(Configuration(), address));
        && shell.history == old(shell.history) + [command]
        && result == match shell.respond(old(shell.history), command)
                     case Completed(stdout) => Returned(ParseUtxos(stdout))
                     case Failed(message) => Threw(message)
    {
      if address == "" {
        return Returned([]);
      }
      var command := Command(QueryArgs(Configuration(), address));
      var r := shell.ExecSync(command);
      if r.Failed? {
        return Threw(r.message);
      }
      var results := Split(r.stdout, '\n');
      var response: seq<Utxo> := [];
      var i := 2;
      while i < |results| - 1
        invariant 2 <= i && (i <= |results| - 1 || i == 2)
        invariant |response| == i - 2
        invariant forall k :: 0 <= k < i - 2 ==> response[k] == ParseRow(results[k + 2])
      {
        response := response + [ParseRow(results[i])];
        i := i + 1;
      }
      if |results| > 3 {
        assert response == ParseRows(results[2..|results| - 1]);
      }
      return Returned(response);
    }

    /** getTotalBalance: the left fold of the amounts of getUTXOs' records. */
    method GetTotalBalance(address: string, shell: Shell) returns (result: Outcome<Num>)
      modifies shell
      ensures address == "" ==> result == Returned(Num(0)) && shell.history == old(shell.history)
      ensures address != "" ==>
        var command := Command(QueryArgs(Configuration(), address));
        && shell.history == old(shell.history) + [command]
        && result == match shell.respond(old(shell.history), command)
                     case Completed(stdout) => Returned(Balance(ParseUtxos(stdout)))
                     case Failed(message) => Threw(message)
    {
      var utxos := GetUtxos(address, shell);
      match utxos
      case Returned(records) =>
        result := Returned(Balance(records));
      case Threw(message) =>
        result := Threw(message);
    }

    /** buildTransaction, with the generated file id as a parameter: no inputs
        is an error and runs nothing; otherwise the build command runs once
        and its failure message or the file id is returned. */
    method BuildTransaction(sender: string, utxos: seq<Utxo>, receiver: string, lovelace: int,
                            fileId: string, shell: Shell) returns (reply: Reply)
      modifies shell
      ensures utxos == [] ==> reply == Error(NoUtxoMessage) && shell.history == old(shell.history)
      ensures utxos != [] ==>
        var command := Command(BuildArgs(Configuration(), sender, utxos, receiver, lovelace, fileId));
        && shell.history == old(shell.history) + [command]
        && reply == match shell.respond(old(shell.history), command)
                    case Completed(_) => FileId(fileId)
                    case Failed(message) => Error(message)
    {
      if |utxos| == 0 {
        return Error(NoUtxoMessage);
      }
      var command := Command(BuildArgs(Configuration(), sender, utxos, receiver, lovelace, fileId));
      var r := shell.ExecSync(command);
      if r.Failed? {
        return Error(r.message);
      }
      return FileId(fileId);
    }

    /** signTransaction: runs the sign command once and returns its failure
        message or the id, now naming the signed file. */
    method SignTransaction(unsignedFileId: string, keyName: string, shell: Shell) returns (reply: Reply)
      modifies shell
      ensures var command := Command(SignArgs(Configuration(), unsignedFileId, keyName));
        && shell.history == old(shell.history) + [command]
        && reply == match shell.respond(old(shell.history), command)
                    case Completed(_) => SingedFileId(unsignedFileId)
                    case Failed(message) => Error(message)
    {
      var command := Command(SignArgs(Configuration(), unsignedFileId, keyName));
      var r := shell.ExecSync(command);
      if r.Failed? {
        return Error(r.message);
      }
      return SingedFileId(unsignedFileId);
    }

    /** submitTransaction: runs the submit command once and returns its
        failure message or an empty object. */
    method SubmitTransaction(signedFileId: string, shell: Shell) returns (reply: Reply)
      modifies shell
      ensures var command := Command(SubmitArgs(Configuration(), signedFileId));
        && shell.history == old(shell.history) + [command]
        && reply == match shell.respond(old(shell.history), command)
                    case Completed(_) => Empty
                    case Failed(message) => Error(message)
    {
      var command := Command(SubmitArgs(Configuration(), signedFileId));
      var r := shell.ExecSync(command);
      if r.Failed? {
        return Error(r.message);
      }
      return Empty;
    }
  }
}
