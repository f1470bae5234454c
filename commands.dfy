/**
 * The command lines the wrapper builds for `cardano-cli`: each is an array
 * of tokens joined with single spaces. A shared rule picks the network flag,
 * and transaction files follow the `unsigned_<id>.tx` / `signed_<id>.tx`
 * naming under the transaction directory.
 */
module Commands {
  import opened JsStrings
  import opened JsValues
  import opened UtxoTable

  datatype Network = Mainnet | Testnet

  /** The era tag; the source spells the second one `shelly-era`. */
  datatype Era = AlonzoEra | ShellyEra

  function EraName(era: Era): string {
    match era
    case AlonzoEra => "alonzo-era"
    case ShellyEra => "shelly-era"
  }

  /** The fields of a constructed wrapper, as the command builders read them. */
  datatype Config = Config(
    network: Network,
    magic: Option<int>,
    base: string,
    era: Era,
    txBasePath: Option<string>,
    keyBasePath: Option<string>)
  {
    /** isTestnet() */
    predicate IsTestnet() {
      network == Testnet
    }
  }

  /** The network flag every command carries. */
  function NetworkFlag(cfg: Config): string {
    if cfg.IsTestnet() then "--testnet-magic=" + InterpolateNumber(cfg.magic) else "--mainnet"
  }

  /** A token that selects a network. */
  predicate IsNetworkFlag(t: string) {
    t == "--mainnet" || StartsWith(t, "--testnet-magic=")
  }

  /** The network flag is `--testnet-magic=<magic>` on the test network and
      `--mainnet` otherwise, never the other kind. */
  lemma NetworkFlagRule(cfg: Config)
    ensures IsNetworkFlag(NetworkFlag(cfg))
    ensures NetworkFlag(cfg) == "--mainnet" <==> !cfg.IsTestnet()
    ensures StartsWith(NetworkFlag(cfg), "--testnet-magic=") <==> cfg.IsTestnet()
    ensures cfg.IsTestnet() ==> NetworkFlag(cfg)[16..] == InterpolateNumber(cfg.magic)
  {
    var flag := NetworkFlag(cfg);
    if cfg.IsTestnet() {
      assert flag[..16] == "--testnet-magic=";
      assert |flag| >= 16 && flag != "--mainnet";
    } else {
      assert |flag| < 16;
    }
  }

  /** The file the build step writes and the sign step reads. */
  function UnsignedFile(cfg: Config, id: string): string {
    Interpolate(cfg.txBasePath) + "/unsigned_" + id + ".tx"
  }

  /** The file the sign step writes and the submit step reads. */
  function SignedFile(cfg: Config, id: string): string {
    Interpolate(cfg.txBasePath) + "/signed_" + id + ".tx"
  }

  function KeyFile(cfg: Config, name: string): string {
    Interpolate(cfg.keyBasePath) + "/" + name
  }

  /** The tokens of `cardano-cli query utxo` for an address. */
  function QueryArgs(cfg: Config, address: string): seq<string> {
    [cfg.base, "query utxo", "--address " + address, NetworkFlag(cfg)]
  }

  function TxIn(u: Utxo): string {
    "--tx-in " + u.txHash + "#" + Interpolate(u.txId)
  }

  function TxIns(utxos: seq<Utxo>): seq<string> {
    seq(|utxos|, k requires 0 <= k < |utxos| => TxIn(utxos[k]))
  }

  function TxOut(receiver: string, lovelace: int): string {
    "--tx-out '" + receiver + " " + IntToString(lovelace) + " lovelace'"
  }

  /** The tokens of `cardano-cli transaction build` before the inputs. */
  function BuildHead(cfg: Config, sender: string): seq<string> {
    [cfg.base, "transaction build", "--" + EraName(cfg.era), NetworkFlag(cfg),
     "--change-address " + sender]
  }

  /** The tokens of `cardano-cli transaction build` after the inputs. */
  function BuildTail(cfg: Config, receiver: string, lovelace: int, fileId: string): seq<string> {
    [TxOut(receiver, lovelace), "--out-file " + UnsignedFile(cfg, fileId)]
  }

  /** The tokens of `cardano-cli transaction build`. */
  function BuildArgs(cfg: Config, sender: string, utxos: seq<Utxo>, receiver: string,
                     lovelace: int, fileId: string): seq<string>
  {
    BuildHead(cfg, sender) + TxIns(utxos) + BuildTail(cfg, receiver, lovelace, fileId)
  }

  /** The tokens of `cardano-cli transaction sign`. */
  function SignArgs(cfg: Config, fileId: string, keyName: string): seq<string> {
    [cfg.base, "transaction sign", NetworkFlag(cfg),
     "--tx-body-file " + UnsignedFile(cfg, fileId),
     "--signing-key-file " + KeyFile(cfg, keyName),
     "--out-file " + SignedFile(cfg, fileId)]
  }

  /** The tokens of `cardano-cli transaction submit`. */
  function SubmitArgs(cfg: Config, fileId: string): seq<string> {
    [cfg.base, "transaction submit", NetworkFlag(cfg), "--tx-file " + SignedFile(cfg, fileId)]
  }

  /** `tokens.join(' ')` */
  function Command(args: seq<string>): string {
    Join(args, " ")
  }

  /** `t` occurs in `s` as a contiguous piece. */
  predicate Contains(s: string, t: string)
    decreases |s|
  {
    StartsWith(s, t) || (s != [] && Contains(s[1..], t))
  }

  lemma {:induction false} ContainsAfter(pre: string, s: string, t: string)
    requires Contains(s, t)
    ensures Contains(pre + s, t)
    decreases |pre|
  {
    if pre == [] {
      assert pre + s == s;
    } else {
      assert (pre + s)[1..] == pre[1..] + s;
      ContainsAfter(pre[1..], s, t);
    }
  }

  /** Every token occurs in the joined text. */
  lemma {:induction false} JoinContains(parts: seq<string>, k: nat, sep: string)
    requires k < |parts|
    ensures Contains(Join(parts, sep), parts[k])
    decreases k
  {
    var whole := Join(parts, sep);
    if k == 0 {
      if |parts| > 1 {
        assert whole == parts[0] + (sep + Join(parts[1..], sep));
      }
      assert whole[..|parts[0]|] == parts[0];
    } else {
      JoinContains(parts[1..], k - 1, sep);
      ContainsAfter(parts[0] + sep, Join(parts[1..], sep), parts[k]);
    }
  }

  /** No token of a command other than the program name and its network flag
      selects a network: the flag is there once, at `k`. */
  predicate FlagOnlyAt(args: seq<string>, k: nat, cfg: Config) {
    && 0 < k < |args|
    && args[k] == NetworkFlag(cfg)
    && forall j :: 1 <= j < |args| && j != k ==> !IsNetworkFlag(args[j])
  }

  /** A token that differs from `--testnet-magic=` at `i` and from
      `--mainnet` at `j` selects no network. */
  lemma NotNetworkFlag(t: string, i: nat, j: nat)
    requires i < |t| && i < 16 && t[i] != "--testnet-magic="[i]
    requires j < |t| && j < 9 && t[j] != "--mainnet"[j]
    ensures !IsNetworkFlag(t)
  {
    if |t| >= 16 {
      assert t[..16][i] == t[i];
    }
  }

  /** Every input token starts with `--tx-in ` and selects no network. */
  lemma TxInsTokens(utxos: seq<Utxo>)
    ensures |TxIns(utxos)| == |utxos|
    ensures forall k :: 0 <= k < |utxos| ==>
      StartsWith(TxIns(utxos)[k], "--tx-in ") && !IsNetworkFlag(TxIns(utxos)[k])
  {
    forall k | 0 <= k < |utxos|
      ensures StartsWith(TxIns(utxos)[k], "--tx-in ") && !IsNetworkFlag(TxIns(utxos)[k])
    {
      var t := TxIn(utxos[k]);
      assert t[..8] == "--tx-in ";
      NotNetworkFlag(t, 3, 2);
    }
  }

  /** Of the tokens before the inputs only the fourth selects a network, and
      none starts with `--tx-in `. */
  lemma BuildHeadTokens(cfg: Config, sender: string)
    ensures var h := BuildHead(cfg, sender);
      && |h| == 5 && h[3] == NetworkFlag(cfg)
      && (forall j :: 1 <= j < 5 && j != 3 ==> !IsNetworkFlag(h[j]))
      && (forall j :: 1 <= j < 5 ==> !StartsWith(h[j], "--tx-in "))
  {
    var h := BuildHead(cfg, sender);
    NotNetworkFlag(h[1], 0, 0);
    NotNetworkFlag(h[2], 2, 2);
    NotNetworkFlag(h[4], 2, 2);
    assert h[1][0] != "--tx-in "[0];
    assert h[2][2] != "--tx-in "[2];
    assert h[4][2] != "--tx-in "[2];
    if cfg.IsTestnet() {
      assert h[3][3] != "--tx-in "[3];
    } else {
      assert h[3][2] != "--tx-in "[2];
    }
  }

  /** The tokens after the inputs select no network and do not start with
      `--tx-in `. */
  lemma BuildTailTokens(cfg: Config, receiver: string, lovelace: int, fileId: string)
    ensures var t := BuildTail(cfg, receiver, lovelace, fileId);
      && |t| == 2
      && (forall j :: 0 <= j < 2 ==> !IsNetworkFlag(t[j]) && !StartsWith(t[j], "--tx-in "))
  {
    var t := BuildTail(cfg, receiver, lovelace, fileId);
    NotNetworkFlag(t[0], 3, 2);
    NotNetworkFlag(t[1], 2, 2);
    assert t[0][..8] == "--tx-out";
    assert t[1][2] != "--tx-in "[2];
  }

  /** The query command carries the network flag once, after the subcommand,
      and the joined text contains it. */
  lemma QueryCarriesNetworkFlag(cfg: Config, address: string)
    ensures FlagOnlyAt(QueryArgs(cfg, address), 3, cfg)
    ensures Contains(Command(QueryArgs(cfg, address)), NetworkFlag(cfg))
  {
    var q := QueryArgs(cfg, address);
    NotNetworkFlag(q[1], 0, 0);
    NotNetworkFlag(q[2], 2, 2);
    JoinContains(q, 3, " ");
  }

  /** The build command carries the network flag once; no input, output or
      file token imitates it. */
  lemma BuildCarriesNetworkFlag(cfg: Config, sender: string, utxos: seq<Utxo>, receiver: string,
                                lovelace: int, fileId: string)
    ensures FlagOnlyAt(BuildArgs(cfg, sender, utxos, receiver, lovelace, fileId), 3, cfg)
    ensures Contains(Command(BuildArgs(cfg, sender, utxos, receiver, lovelace, fileId)), NetworkFlag(cfg))
  {
    BuildHeadTokens(cfg, sender);
    TxInsTokens(utxos);
    BuildTailTokens(cfg, receiver, lovelace, fileId);
    BuildFlagOnlyAt(BuildHead(cfg, sender), TxIns(utxos), BuildTail(cfg, receiver, lovelace, fileId), cfg);
    JoinContains(BuildArgs(cfg, sender, utxos, receiver, lovelace, fileId), 3, " ");
  }

  /** Only the fourth token of a build list selects a network when the head,
      the inputs and the tail put no other flag there. */
  lemma BuildFlagOnlyAt(h: seq<string>, m: seq<string>, t: seq<string>, cfg: Config)
    requires |h| == 5 && h[3] == NetworkFlag(cfg)
    requires forall j :: 1 <= j < 5 && j != 3 ==> !IsNetworkFlag(h[j])
    requires forall k :: 0 <= k < |m| ==> !IsNetworkFlag(m[k])
    requires forall k :: 0 <= k < |t| ==> !IsNetworkFlag(t[k])
    ensures FlagOnlyAt(h + m + t, 3, cfg)
  {
    var b := h + m + t;
    forall j | 1 <= j < |b| && j != 3 ensures !IsNetworkFlag(b[j]) {
      if j < 5 {
        assert b[j] == h[j];
      } else if j < 5 + |m| {
        assert b[j] == m[j - 5];
      } else {
        assert b[j] == t[j - 5 - |m|];
      }
    }
  }

  /** The sign command carries the network flag once. */
  lemma SignCarriesNetworkFlag(cfg: Config, fileId: string, keyName: string)
    ensures FlagOnlyAt(SignArgs(cfg, fileId, keyName), 2, cfg)
    ensures Contains(Command(SignArgs(cfg, fileId, keyName)), NetworkFlag(cfg))
  {
    var s := SignArgs(cfg, fileId, keyName);
    NotNetworkFlag(s[1], 0, 0);
    NotNetworkFlag(s[3], 3, 2);
    NotNetworkFlag(s[4], 2, 2);
    NotNetworkFlag(s[5], 2, 2);
    JoinContains(s, 2, " ");
  }

  /** The submit command carries the network flag once. */
  lemma SubmitCarriesNetworkFlag(cfg: Config, fileId: string)
    ensures FlagOnlyAt(SubmitArgs(cfg, fileId), 2, cfg)
    ensures Contains(Command(SubmitArgs(cfg, fileId)), NetworkFlag(cfg))
  {
    var u := SubmitArgs(cfg, fileId);
    NotNetworkFlag(u[1], 0, 0);
    NotNetworkFlag(u[3], 3, 2);
    JoinContains(u, 2, " ");
  }

  /** The build command: one `--tx-in <hash>#<index>` token per input, in
      input order, then the output and the unsigned file named by `fileId`. */
  lemma BuildArgsLayout(cfg: Config, sender: string, utxos: seq<Utxo>, receiver: string,
                        lovelace: int, fileId: string)
    ensures var args := BuildArgs(cfg, sender, utxos, receiver, lovelace, fileId);
      && |args| == |utxos| + 7
      && (forall k :: 0 <= k < |utxos| ==>
            args[5 + k] == "--tx-in " + utxos[k].txHash + "#" + Interpolate(utxos[k].txId))
      && args[|utxos| + 5] == TxOut(receiver, lovelace)
      && args[|utxos| + 6] == "--out-file " + UnsignedFile(cfg, fileId)
  {
    var t := BuildTail(cfg, receiver, lovelace, fileId);
    InputPositions(BuildHead(cfg, sender), utxos, t, BuildArgs(cfg, sender, utxos, receiver, lovelace, fileId));
  }

  /** In a list made of a five-token head, the input tokens and a two-token
      tail, the inputs sit at 5.. in input order and the tail comes last. */
  lemma InputPositions(h: seq<string>, utxos: seq<Utxo>, t: seq<string>, args: seq<string>)
    requires |h| == 5 && |t| == 2 && args == h + TxIns(utxos) + t
    ensures |args| == |utxos| + 7
    ensures forall k :: 0 <= k < |utxos| ==>
      args[5 + k] == "--tx-in " + utxos[k].txHash + "#" + Interpolate(utxos[k].txId)
    ensures args[|utxos| + 5] == t[0] && args[|utxos| + 6] == t[1]
  {
    var m := TxIns(utxos);
    forall k | 0 <= k < |utxos|
      ensures args[5 + k] == "--tx-in " + utxos[k].txHash + "#" + Interpolate(utxos[k].txId)
    {
      assert args[5 + k] == m[k];
    }
  }

  /** The tokens after the program name that start with `--tx-in ` are
      exactly the input tokens. */
  lemma BuildTxInsOnly(cfg: Config, sender: string, utxos: seq<Utxo>, receiver: string,
                       lovelace: int, fileId: string)
    ensures var args := BuildArgs(cfg, sender, utxos, receiver, lovelace, fileId);
      forall j :: 1 <= j < |args| ==> (StartsWith(args[j], "--tx-in ") <==> 5 <= j < 5 + |utxos|)
  {
    var h := BuildHead(cfg, sender);
    var m := TxIns(utxos);
    var t := BuildTail(cfg, receiver, lovelace, fileId);
    var args := h + m + t;
    BuildHeadTokens(cfg, sender);
    TxInsTokens(utxos);
    BuildTailTokens(cfg, receiver, lovelace, fileId);
    forall j | 1 <= j < |args|
      ensures StartsWith(args[j], "--tx-in ") <==> 5 <= j < 5 + |m|
    {
      if j < 5 {
        assert args[j] == h[j];
      } else if j < 5 + |m| {
        assert args[j] == m[j - 5];
      } else {
        assert args[j] == t[j - 5 - |m|];
      }
    }
  }

  /** The build command's text is the head's text, then the joined input
      tokens when there are any, then the tail's text, one space apart. */
  lemma BuildCommandText(cfg: Config, sender: string, utxos: seq<Utxo>, receiver: string,
                         lovelace: int, fileId: string)
    ensures var text := Command(BuildArgs(cfg, sender, utxos, receiver, lovelace, fileId));
      && (utxos == [] ==>
            text == Command(BuildHead(cfg, sender)) + " "
                    + Command(BuildTail(cfg, receiver, lovelace, fileId)))
      && (utxos != [] ==>
            text == Command(BuildHead(cfg, sender)) + " " + Command(TxIns(utxos)) + " "
                    + Command(BuildTail(cfg, receiver, lovelace, fileId)))
  {
    var h := BuildHead(cfg, sender);
    var m := TxIns(utxos);
    var t := BuildTail(cfg, receiver, lovelace, fileId);
    if utxos == [] {
      assert h + m == h;
      JoinAppend(h, t, " ");
    } else {
      JoinAppend(h, m, " ");
      JoinAppend(h + m, t, " ");
    }
  }

  lemma MiddleOf(x: string, m: string, y: string)
    ensures (x + m + y)[|x|..|x| + |m|] == m
  {
  }

  /** Distinct ids name distinct files, and an unsigned file is never a
      signed one: the sign step reads the file the build step wrote exactly
      when they use the same id, and likewise for submit after sign. */
  lemma FileNamesDistinct(cfg: Config, a: string, b: string)
    ensures UnsignedFile(cfg, a) == UnsignedFile(cfg, b) <==> a == b
    ensures SignedFile(cfg, a) == SignedFile(cfg, b) <==> a == b
    ensures UnsignedFile(cfg, a) != SignedFile(cfg, b)
  {
    var p := Interpolate(cfg.txBasePath);
    if UnsignedFile(cfg, a) == UnsignedFile(cfg, b) {
      MiddleOf(p + "/unsigned_", a, ".tx");
      MiddleOf(p + "/unsigned_", b, ".tx");
    }
    if SignedFile(cfg, a) == SignedFile(cfg, b) {
      MiddleOf(p + "/signed_", a, ".tx");
      MiddleOf(p + "/signed_", b, ".tx");
    }
    assert UnsignedFile(cfg, a)[|p| + 1] == 'u';
    assert SignedFile(cfg, b)[|p| + 1] == 's';
  }
}
