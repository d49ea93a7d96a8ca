/**
 * Admitted conformers and the ledger that keeps them: the energy filter, the ranking
 * order, the insertion that keeps the ledger sorted, the RMSD refresh against the
 * best-ranked record, the rows of `energy_data.csv` and the structure file names.
 */
module Conformers {

  /**
   * `PNAB::ConformerData`, without its `rmsd`, which the ledger keeps beside it (see Entry).
   * The full-chain coordinate buffer is represented only by `chainCoordsPresent`.
   */
  datatype Conformer = Conformer(
    index: nat,
    distance: real,
    totalEnergy: real,
    angleE: real,
    bondE: real,
    torsionE: real,
    vdwE: real,
    totTorsionE: real,
    monomer: seq<real>,
    chainCoordsPresent: bool)

  /** One ledger record: the conformer and its RMSD against the current best record. */
  datatype Entry = Entry(data: Conformer, rmsd: real)

  /** The energies isPassingEFilter compares, in the order of the configured ceilings. */
  function EnergyValues(c: Conformer): seq<real> {
    [c.totalEnergy, c.angleE, c.bondE, c.vdwE, c.totTorsionE]
  }

  /** Every configured ceiling is respected; a ceiling that is not configured never rejects. */
  predicate WithinCeilings(c: Conformer, maxVals: seq<real>)
    requires |maxVals| <= 5
  {
    forall i :: 0 <= i < |maxVals| ==> EnergyValues(c)[i] <= maxVals[i]
  }

  /** `MonteCarloRotorSearch::isPassingEFilter`: returns false at the first exceeded ceiling. */
  method IsPassingEFilter(c: Conformer, maxVals: seq<real>) returns (pass: bool)
    requires |maxVals| <= 5
    ensures pass <==> forall i :: 0 <= i < |maxVals| ==> EnergyValues(c)[i] <= maxVals[i]
  {
    var curVals := EnergyValues(c);
    for i := 0 to |maxVals|
      invariant forall j :: 0 <= j < i ==> curVals[j] <= maxVals[j]
    {
      if maxVals[i] < curVals[i] {
        return false;
      }
    }
    return true;
  }

  /**
   * The filter's boundaries: an empty filter admits everything, energies equal to their
   * ceilings are admitted, and one exceeded ceiling rejects whatever the others say.
   */
  lemma FilterBoundaries(c: Conformer, maxVals: seq<real>, k: nat)
    requires |maxVals| <= 5
    ensures maxVals == [] ==> WithinCeilings(c, maxVals)
    ensures maxVals == EnergyValues(c)[..|maxVals|] ==> WithinCeilings(c, maxVals)
    ensures k < |maxVals| && maxVals[k] < EnergyValues(c)[k] ==> !WithinCeilings(c, maxVals)
  {
    if maxVals == EnergyValues(c)[..|maxVals|] {
      assert forall i :: 0 <= i < |maxVals| ==> maxVals[i] == EnergyValues(c)[i];
    }
  }

  /** The record ordering (`operator<`, not part of this model) is a strict order. */
  ghost predicate StrictOrder(lt: (Conformer, Conformer) -> bool) {
    && (forall a :: !lt(a, a))
    && (forall a, b, c :: lt(a, b) && lt(b, c) ==> lt(a, c))
  }

  /** No record ranks strictly before one that precedes it. */
  predicate Sorted(s: seq<Entry>, lt: (Conformer, Conformer) -> bool) {
    forall i, j :: 0 <= i < j < |s| ==> !lt(s[j].data, s[i].data)
  }

  function Confs(s: seq<Entry>): seq<Conformer> {
    seq(|s|, i requires 0 <= i < |s| => s[i].data)
  }

  /**
   * `push_back` followed by `std::sort` on a ledger that was sorted before: the new record
   * goes after every record it does not rank before. The result is sorted and holds the
   * old records and the new one, each as often as before.
   */
  method InsertSorted(s: seq<Entry>, x: Entry, lt: (Conformer, Conformer) -> bool)
    returns (r: seq<Entry>, ghost p: nat)
    requires StrictOrder(lt) && Sorted(s, lt)
    ensures p <= |s| && r == s[..p] + [x] + s[p..]
    ensures Sorted(r, lt)
    ensures multiset(r) == multiset(s) + multiset{x}
  {
    var i := 0;
    while i < |s| && !lt(x.data, s[i].data)
      invariant 0 <= i <= |s|
      invariant forall j :: 0 <= j < i ==> !lt(x.data, s[j].data)
    {
      i := i + 1;
    }
    // every later record: it does not rank before x, or x < s[i] would put it before s[i]
    assert forall j :: i <= j < |s| ==> !lt(s[j].data, x.data);
    r, p := s[..i] + [x] + s[i..], i;
    assert s == s[..i] + s[i..];
  }

  /** The refreshed RMSD of every record: against the monomer of the first, best-ranked one. */
  predicate RmsdFresh(s: seq<Entry>, rmsd: (seq<real>, seq<real>) -> real) {
    forall i :: 0 <= i < |s| ==> s[i].rmsd == rmsd(s[0].data.monomer, s[i].data.monomer)
  }

  /** One line of `energy_data.csv`; the formatting of the numbers is not part of this model. */
  datatype CsvRow = CsvRow(
    index: nat, totalEnergy: real, distance: real, bondE: real, angleE: real,
    torsionE: real, vdwE: real, totTorsionE: real, rmsd: real)

  const CsvHeader: string :=
    "Conformer Index, Energy (kcal/mol), Distance (A), Bond Energy, Angle Energy,"
    + " Torsion Energy, VDW Energy, Total Torsion Energy, RMSD (A)"

  datatype CsvFile = CsvFile(header: string, rows: seq<CsvRow>)

  function RowOf(e: Entry): CsvRow {
    CsvRow(e.data.index, e.data.totalEnergy, e.data.distance, e.data.bondE, e.data.angleE,
           e.data.torsionE, e.data.vdwE, e.data.totTorsionE, e.rmsd)
  }

  /** The file print writes: the header, then one row per ledger record in ledger order. */
  function CsvOf(s: seq<Entry>): (f: CsvFile)
    ensures f.header == CsvHeader && |f.rows| == |s|
    ensures forall i :: 0 <= i < |s| ==> f.rows[i].index == s[i].data.index && f.rows[i].rmsd == s[i].rmsd
  {
    CsvFile(CsvHeader, seq(|s|, i requires 0 <= i < |s| => RowOf(s[i])))
  }

  /**
   * print's loop over the sorted ledger: every record's RMSD is recomputed against the
   * first record's monomer coordinates, and one CSV row is emitted per record.
   */
  method RefreshRmsd(s: seq<Entry>, rmsd: (seq<real>, seq<real>) -> real)
    returns (r: seq<Entry>, rows: seq<CsvRow>)
    requires |s| > 0
    ensures Confs(r) == Confs(s)
    ensures RmsdFresh(r, rmsd)
    ensures CsvFile(CsvHeader, rows) == CsvOf(r)
  {
    var reference := s[0].data.monomer;
    r, rows := [], [];
    for i := 0 to |s|
      invariant |r| == i && |rows| == i
      invariant forall j :: 0 <= j < i ==> r[j] == Entry(s[j].data, rmsd(reference, s[j].data.monomer))
      invariant forall j :: 0 <= j < i ==> rows[j] == RowOf(r[j])
    {
      var v := Entry(s[i].data, rmsd(reference, s[i].data.monomer));
      r := r + [v];
      rows := rows + [RowOf(v)];
    }
    assert Confs(r) == Confs(s);
  }

  function DigitChar(d: nat): char
    requires d < 10
  {
    ('0' as int + d) as char
  }

  /** The decimal text `operator<<` writes for an index. */
  function DecimalDigits(n: nat): (s: string)
    ensures |s| >= 1
    ensures n < 10 <==> |s| == 1
  {
    if n < 10 then [DigitChar(n)] else DecimalDigits(n / 10) + [DigitChar(n % 10)]
  }

  /** Different indices have different decimal texts. */
  lemma {:induction false} DecimalDigitsInjective(a: nat, b: nat)
    requires DecimalDigits(a) == DecimalDigits(b)
    ensures a == b
  {
    var s := DecimalDigits(a);
    assert DigitChar(a % 10) == s[|s| - 1] == DigitChar(b % 10);
    if a >= 10 && b >= 10 {
      assert DecimalDigits(a / 10) == s[..|s| - 1] == DecimalDigits(b / 10);
      DecimalDigitsInjective(a / 10, b / 10);
    }
  }

  /** The structure file print writes for a record: `"conformer_" + index + ".pdb"`. */
  function FileName(index: nat): string {
    "conformer_" + DecimalDigits(index) + ".pdb"
  }

  /** Records with different indices are written to different files. */
  lemma FileNameInjective(a: nat, b: nat)
    ensures FileName(a) == FileName(b) <==> a == b
  {
    if FileName(a) == FileName(b) {
      var fa, fb := FileName(a), FileName(b);
      assert DecimalDigits(a) == fa[10..|fa| - 4];
      assert DecimalDigits(b) == fb[10..|fb| - 4];
      DecimalDigitsInjective(a, b);
    }
  }

  function FileNames(cs: seq<Conformer>): seq<string> {
    seq(|cs|, i requires 0 <= i < |cs| => FileName(cs[i].index))
  }
}
