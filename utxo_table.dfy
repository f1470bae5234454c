/**
 * Parsing the table that `cardano-cli query utxo` prints, and summing the
 * lovelace of the parsed records (getUTXOs and getTotalBalance).
 *
 * The output is split on newlines; the first two lines (header and rule) and
 * the last element (what follows the final newline) are skipped. Every other
 * line has its white-space runs collapsed to one space and is split on
 * spaces: field 0 is the transaction hash, field 1 the output index and
 * field 2, through unary `+`, the amount.
 */
module UtxoTable {
  import opened JsStrings
  import opened JsValues

  /** One unspent output as the parser builds it; a missing field is
      `undefined` (`None`) and a missing or non-numeric amount is NaN. */
  datatype Utxo = Utxo(txHash: string, txId: Option<string>, lovelace: Num)

  /** `line.replace(/\s+/g, " ").split(' ')` */
  function Fields(line: string): seq<string> {
    Split(Collapse(line), ' ')
  }

  /** `fields[k]`: undefined past the end. */
  function Field(fields: seq<string>, k: nat): Option<string> {
    if k < |fields| then Some(fields[k]) else None
  }

  /** The record built from one data line. */
  function ParseRow(line: string): Utxo {
    var fields := Fields(line);
    Utxo(fields[0], Field(fields, 1), ToNumber(Field(fields, 2)))
  }

  function ParseRows(lines: seq<string>): seq<Utxo> {
    seq(|lines|, k requires 0 <= k < |lines| => ParseRow(lines[k]))
  }

  /** The records getUTXOs returns for the tool's standard output: one per
      line from the third up to, but not including, the last element of the
      split. */
  function ParseUtxos(stdout: string): seq<Utxo> {
    var lines := Split(stdout, '\n');
    if |lines| <= 3 then [] else ParseRows(lines[2..|lines| - 1])
  }

  /** Output that splits into n lines gives max(0, n - 3) records, the record
      at position k coming from line k + 2, so the tool's order is kept. */
  lemma ParseUtxosShape(stdout: string)
    ensures var newlines := multiset(stdout)['\n'];
      |ParseUtxos(stdout)| == if newlines > 2 then newlines - 2 else 0
    ensures forall k :: 0 <= k < |ParseUtxos(stdout)| ==>
      ParseUtxos(stdout)[k] == ParseRow(Split(stdout, '\n')[k + 2])
  {
    SplitCount(stdout, '\n');
  }

  /** Text made of `rows`, each followed by a newline, then `tail`. */
  function Lines(rows: seq<string>, tail: string): string {
    if rows == [] then tail else rows[0] + ("\n" + Lines(rows[1..], tail))
  }

  lemma {:induction false} SplitLines(rows: seq<string>, tail: string)
    requires forall k :: 0 <= k < |rows| ==> '\n' !in rows[k]
    ensures Split(Lines(rows, tail), '\n') == rows + Split(tail, '\n')
    decreases |rows|
  {
    if rows != [] {
      SplitAfter(rows[0], Lines(rows[1..], tail), '\n');
      SplitLines(rows[1..], tail);
      assert rows == [rows[0]] + rows[1..];
    }
  }

  /** Two header lines followed by newline-terminated data rows parse to
      one record per row, in order. Whatever follows the last newline is
      dropped, so output without a trailing newline loses its last row. */
  lemma ParseTable(header: string, rule: string, rows: seq<string>, tail: string)
    requires '\n' !in header && '\n' !in rule && '\n' !in tail
    requires forall k :: 0 <= k < |rows| ==> '\n' !in rows[k]
    ensures ParseUtxos(Lines([header, rule] + rows, tail)) == ParseRows(rows)
  {
    var all := [header, rule] + rows;
    assert forall k :: 0 <= k < |all| ==> '\n' !in all[k];
    SplitLines(all, tail);
    SplitPrefix(tail, [], '\n');
    assert tail + [] == tail;
    var lines := Split(Lines(all, tail), '\n');
    assert lines == all + [tail];
    assert lines[2..|lines| - 1] == rows;
  }

  lemma NoBlank(w: string)
    requires NoSpace(w)
    ensures ' ' !in w
  {
  }

  /** After the collapse and split no field holds white space. */
  lemma FieldsHaveNoSpace(line: string, k: nat)
    requires k < |Fields(line)|
    ensures NoSpace(Fields(line)[k])
  {
    var c := Collapse(line);
    var f := Fields(line)[k];
    SplitParts(c, ' ', k);
    CollapseOnlyBlanks(line);
    forall j | 0 <= j < |f| ensures !IsSpace(f[j]) {
      assert f[j] in multiset(f);
      assert f[j] in multiset(c);
      assert f[j] in c;
      var i :| 0 <= i < |c| && c[i] == f[j];
      assert f[j] != ' ';
    }
  }

  lemma SplitEmptyFirst(c: string)
    requires c == [] || c[0] == ' '
    ensures Split(c, ' ')[0] == []
  {
  }

  /** Three space-free words separated by single spaces, then nothing or
      a space: the split yields the words as its first three fields. */
  lemma SplitThreeWords(x: string, y: string, z: string, c: string)
    requires ' ' !in x && ' ' !in y && ' ' !in z
    requires c == [] || c[0] == ' '
    ensures var f := Split(x + ([' '] + (y + ([' '] + (z + c)))), ' ');
      |f| >= 3 && f[0] == x && f[1] == y && f[2] == z
  {
    SplitEmptyFirst(c);
    SplitPrefix(z, c, ' ');
    assert z + [] == z;
    SplitAfter(y, z + c, ' ');
    SplitAfter(x, y + ([' '] + (z + c)), ' ');
  }

  lemma CollapseRow(hash: string, g1: string, index: string, g2: string, amount: string, rest: string)
    requires Word(hash) && Gap(g1) && Word(index) && Gap(g2) && Word(amount)
    ensures Collapse(hash + (g1 + (index + (g2 + (amount + rest)))))
         == hash + ([' '] + (index + ([' '] + (amount + Collapse(rest)))))
  {
    CollapseWord(amount, rest);
    CollapseGap(g2, amount + rest);
    CollapseWord(index, g2 + (amount + rest));
    CollapseGap(g1, index + (g2 + (amount + rest)));
    CollapseWord(hash, g1 + (index + (g2 + (amount + rest))));
  }

  /** A line of the shape `hash gap index gap amount ...` gives its three
      words as the record's hash, index and amount. */
  lemma RowColumns(hash: string, g1: string, index: string, g2: string, amount: string, rest: string)
    requires Word(hash) && Gap(g1) && Word(index) && Gap(g2) && Word(amount) && AtBoundary(rest)
    ensures ParseRow(hash + (g1 + (index + (g2 + (amount + rest)))))
         == Utxo(hash, Some(index), ToNumber(Some(amount)))
  {
    CollapseRow(hash, g1, index, g2, amount, rest);
    NoBlank(hash);
    NoBlank(index);
    NoBlank(amount);
    SplitThreeWords(hash, index, amount, Collapse(rest));
  }

  /** The `[] +` on the right is the empty first field, written so the result
      has the shape `SplitThreeWords` takes with `x == []`. */
  lemma CollapseShiftedRow(g0: string, first: string, g1: string, second: string, rest: string)
    requires Gap(g0) && Word(first) && Gap(g1) && Word(second)
    ensures Collapse(g0 + (first + (g1 + (second + rest))))
         == [] + ([' '] + (first + ([' '] + (second + Collapse(rest)))))
  {
    CollapseWord(second, rest);
    CollapseGap(g1, second + rest);
    CollapseWord(first, g1 + (second + rest));
    CollapseGap(g0, first + (g1 + (second + rest)));
  }

  /** A line that starts with white space gets an empty hash, and its words
      move one column right: the first word becomes the index and the
      second the amount. */
  lemma ShiftedRowColumns(g0: string, first: string, g1: string, second: string, rest: string)
    requires Gap(g0) && Word(first) && Gap(g1) && Word(second) && AtBoundary(rest)
    ensures ParseRow(g0 + (first + (g1 + (second + rest))))
         == Utxo("", Some(first), ToNumber(Some(second)))
  {
    CollapseShiftedRow(g0, first, g1, second, rest);
    NoBlank(first);
    NoBlank(second);
    SplitThreeWords([], first, second, Collapse(rest));
  }

  /** Any line that starts with white space gets an empty hash. */
  lemma LeadingSpaceEmptiesHash(line: string)
    requires line != [] && IsSpace(line[0])
    ensures ParseRow(line).txHash == ""
  {
    var c := Collapse(line);
    assert c == [' '] + c[1..];
  }

  /** `utxos.reduce((prev, curr) => prev + curr.lovelace, 0)`: a fold from
      the left starting at 0. */
  function Balance(utxos: seq<Utxo>): Num {
    if utxos == [] then Num(0)
    else Add(Balance(utxos[..|utxos| - 1]), utxos[|utxos| - 1].lovelace)
  }

  predicate AllNumeric(utxos: seq<Utxo>) {
    forall k :: 0 <= k < |utxos| ==> utxos[k].lovelace.Num?
  }

  /** The plain sum of the amounts. */
  function Sum(utxos: seq<Utxo>): int
    requires AllNumeric(utxos)
  {
    if utxos == [] then 0 else utxos[0].lovelace.value + Sum(utxos[1..])
  }

  lemma {:induction false} SumSnoc(utxos: seq<Utxo>, u: Utxo)
    requires AllNumeric(utxos) && u.lovelace.Num?
    ensures AllNumeric(utxos + [u])
    ensures Sum(utxos + [u]) == Sum(utxos) + u.lovelace.value
    decreases |utxos|
  {
    if utxos != [] {
      assert (utxos + [u])[1..] == utxos[1..] + [u];
      SumSnoc(utxos[1..], u);
    }
  }

  /** The balance is the sum of the amounts, 0 for no records, and NaN as
      soon as one amount is NaN. */
  lemma {:induction false} BalanceIsSum(utxos: seq<Utxo>)
    ensures Balance(utxos) == if AllNumeric(utxos) then Num(Sum(utxos)) else NaN
    decreases |utxos|
  {
    if utxos != [] {
      var init := utxos[..|utxos| - 1];
      var last := utxos[|utxos| - 1];
      BalanceIsSum(init);
      assert utxos == init + [last];
      if AllNumeric(init) && last.lovelace.Num? {
        SumSnoc(init, last);
      } else if !AllNumeric(init) {
        var k :| 0 <= k < |init| && !init[k].lovelace.Num?;
        assert utxos[k] == init[k];
      }
    }
  }

  lemma SampleRowText()
    ensures " TxHash01 0 1000000 lovelace"
         == " " + ("TxHash01" + (" " + ("0" + " 1000000 lovelace")))
  {
  }

  lemma SampleRowWords()
    ensures Gap(" ") && Word("TxHash01") && Word("0") && AtBoundary(" 1000000 lovelace")
    ensures ToNumber(Some("0")) == Num(0)
  {
  }

  /** A data row that starts with white space: the hash comes out empty and
      the columns shift, so the amount read is the output index 0. */
  lemma SampleRow()
    ensures ParseRow(" TxHash01 0 1000000 lovelace") == Utxo("", Some("TxHash01"), Num(0))
  {
    SampleRowText();
    SampleRowWords();
    ShiftedRowColumns(" ", "TxHash01", " ", "0", " 1000000 lovelace");
  }

  /** The same row under two header lines yields that one record when a
      newline ends it. */
  lemma SampleQueryOutput()
    ensures ParseUtxos(Lines(["header", "------", " TxHash01 0 1000000 lovelace"], ""))
         == [Utxo("", Some("TxHash01"), Num(0))]
  {
    SampleRow();
    SampleHeaders();
    var row := " TxHash01 0 1000000 lovelace";
    assert ["header", "------", row] == ["header", "------"] + [row];
    ParseTable("header", "------", [row], "");
  }

  /** Without the final newline the row is not read at all. */
  lemma SampleQueryOutputUnterminated()
    ensures ParseUtxos(Lines(["header", "------"], " TxHash01 0 1000000 lovelace")) == []
  {
    SampleHeaders();
    assert ["header", "------"] == ["header", "------"] + [];
    ParseTable("header", "------", [], " TxHash01 0 1000000 lovelace");
  }

  lemma SampleHeaders()
    ensures '\n' !in "header" && '\n' !in "------"
    ensures '\n' !in " TxHash01 0 1000000 lovelace"
  {
  }
}
