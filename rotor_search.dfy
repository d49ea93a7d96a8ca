/**
 * The Monte Carlo rotor search: per trial, every rotor of the monomer is driven to a
 * random angle accepted by a Metropolis test on the head-to-tail closure distance; a
 * trial whose final distance is below the configured maximum yields a conformer, which
 * is written out and ranked when it passes the energy filter.
 *
 * The chemistry (rotor geometry, the step transform, energies, RMSD) and the random
 * engine are parameters of the model (see Oracles).
 */
module RotorSearch {
  import opened Wrappers
  import opened Conformers

  datatype Vec3 = Vec3(x: real, y: real, z: real)

  /** A closure distance as a double: finite, or the `infinity()` the search starts from. */
  datatype Distance = Finite(value: real) | Infinity

  /** `<` on doubles, restricted to finite values and +infinity. */
  predicate Below(a: Distance, b: Distance) {
    match (a, b)
    case (Finite(x), Finite(y)) => x < y
    case (Finite(_), Infinity) => true
    case (Infinity, _) => false
  }

  /**
   * What the search consults but does not compute itself.
   * `angleDraw(k)` and `unitDraw(k)` are the values `dist(rng_)` and `one_zero_dist(rng_)`
   * yield when they consume the k-th draw of the random engine; `rotate(coords, r, angle)`
   * is the coordinate buffer after `SetToAngle` on the r-th rotor; `closure(head, tail)` is
   * the distance from the head atom to the tail atom moved by the helical step;
   * `expNeg(x)` is `exp(-x)`; `generate` is `Chain::generateConformerData`;
   * `rmsd` is `calcRMSD`.
   */
  datatype Oracles = Oracles(
    angleDraw: nat -> real,
    unitDraw: nat -> real,
    rotate: (seq<real>, nat, real) -> seq<real>,
    closure: (Vec3, Vec3) -> real,
    expNeg: real -> real,
    generate: seq<real> -> Conformer,
    rmsd: (seq<real>, seq<real>) -> real)

  /** The Metropolis temperature factor, in square Angstroms. */
  const K_EFFECTIVE: real := 0.59 / 5.15

  /**
   * Rotating a rotor moves atoms; it neither adds nor removes coordinates. `SetToAngle`
   * updates a fixed `double*` in place, so `rotate` is assumed to keep the length; the
   * fallback to the old buffer only makes that assumption total and is not source behaviour.
   */
  function SetToAngle(coords: seq<real>, rotor: nat, angle: real, o: Oracles): (r: seq<real>)
    ensures |r| == |coords|
  {
    var moved := o.rotate(coords, rotor, angle);
    if |moved| == |coords| then moved else coords
  }

  /** Atoms are numbered from 1 and the buffer holds x, y, z per atom. */
  predicate Measurable(coords: seq<real>, head: nat, tail: nat) {
    1 <= head && 1 <= tail && 3 * head <= |coords| && 3 * tail <= |coords|
  }

  function AtomAt(coords: seq<real>, atom: nat): Vec3
    requires 1 <= atom && 3 * atom <= |coords|
  {
    var i := 3 * (atom - 1);
    Vec3(coords[i], coords[i + 1], coords[i + 2])
  }

  /** `measureDistance`: the closure distance between the head atom and the tail atom. */
  function MeasureDistance(coords: seq<real>, head: nat, tail: nat, o: Oracles): real
    requires Measurable(coords, head, tail)
  {
    o.closure(AtomAt(coords, head), AtomAt(coords, tail))
  }

  /** The distance reads the head and tail triples and nothing else of the buffer. */
  lemma MeasureReadsOnlyEnds(c1: seq<real>, c2: seq<real>, head: nat, tail: nat, o: Oracles)
    requires Measurable(c1, head, tail) && Measurable(c2, head, tail)
    requires c1[3 * (head - 1)..3 * head] == c2[3 * (head - 1)..3 * head]
    requires c1[3 * (tail - 1)..3 * tail] == c2[3 * (tail - 1)..3 * tail]
    ensures MeasureDistance(c1, head, tail, o) == MeasureDistance(c2, head, tail, o)
  {
    var h, t := 3 * (head - 1), 3 * (tail - 1);
    assert c1[h] == c1[h..h + 3][0] == c2[h];
    assert c1[h + 1] == c1[h..h + 3][1] == c2[h + 1];
    assert c1[h + 2] == c1[h..h + 3][2] == c2[h + 2];
    assert c1[t] == c1[t..t + 3][0] == c2[t];
    assert c1[t + 1] == c1[t..t + 3][1] == c2[t + 1];
    assert c1[t + 2] == c1[t..t + 3][2] == c2[t + 2];
  }

  const UINT_RANGE: nat := 0x1_0000_0000

  /** `3 * (atom - 1)` evaluated in 32-bit unsigned arithmetic. */
  function UnsignedOffset(atom: nat): nat
    requires atom < UINT_RANGE
  {
    (3 * ((atom + UINT_RANGE - 1) % UINT_RANGE)) % UINT_RANGE
  }

  /**
   * The three reads at the unsigned offset, in a buffer of fewer than 2^32 - 1 values.
   * Atom 0 wraps around to an offset near 2^32, outside the buffer. While `3 * (atom - 1)`
   * fits 32 bits, the reads are in bounds exactly when the atom's triple fits. Beyond that
   * the product wraps once or twice, so atom 0x5555_5557 reads at offset 2, inside the
   * buffer, although its triple does not fit.
   */
  lemma UnsignedOffsetInBounds(atom: nat, n: nat)
    requires atom < UINT_RANGE && n < UINT_RANGE - 1
    ensures atom == 0 ==> UnsignedOffset(atom) == UINT_RANGE - 3
    ensures 1 <= atom && 3 * (atom - 1) < UINT_RANGE ==> (UnsignedOffset(atom) + 2 < n <==> 3 * atom <= n)
    ensures UINT_RANGE <= 3 * (atom - 1) < 2 * UINT_RANGE ==> UnsignedOffset(atom) == 3 * (atom - 1) - UINT_RANGE
    ensures 2 * UINT_RANGE <= 3 * (atom - 1) ==> UnsignedOffset(atom) == 3 * (atom - 1) - 2 * UINT_RANGE
    ensures UnsignedOffset(0x5555_5557) == 2
  {
    if atom == 0 {
      assert (atom + UINT_RANGE - 1) % UINT_RANGE == UINT_RANGE - 1;
    } else {
      assert (atom + UINT_RANGE - 1) % UINT_RANGE == atom - 1;
    }
    assert (0x5555_5557 + UINT_RANGE - 1) % UINT_RANGE == 0x5555_5556;
  }

  /** The Metropolis weight `exp(-(cur - best)^2 / k)`; it is 0 while `best` is +infinity. */
  function MetropolisWeight(cur: real, best: Distance, o: Oracles): real {
    match best
    case Infinity => 0.0
    case Finite(b) => o.expNeg((cur - b) * (cur - b) / K_EFFECTIVE)
  }

  /**
   * The inner loop of run for one rotor. The first proposal is always accepted, since no
   * finite distance is below +infinity and the Metropolis weight is then 0; so one angle
   * draw is consumed, and `||` short-circuits before the uniform draw.
   */
  method SampleRotor(coords: seq<real>, rotor: nat, pos: nat, head: nat, tail: nat, o: Oracles)
    returns (coords': seq<real>, dist: real, pos': nat)
    requires Measurable(coords, head, tail)
    ensures coords' == SetToAngle(coords, rotor, o.angleDraw(pos), o)
    ensures dist == MeasureDistance(coords', head, tail, o)
    ensures pos' == pos + 1
  {
    var accept := false;
    var best := Infinity;
    coords', dist, pos' := coords, 0.0, pos;
    while !accept
      invariant Measurable(coords', head, tail)
      invariant !accept ==> best == Infinity && coords' == coords && pos' == pos
      invariant accept ==> && coords' == SetToAngle(coords, rotor, o.angleDraw(pos), o)
                           && dist == MeasureDistance(coords', head, tail, o)
                           && pos' == pos + 1
      decreases if accept then 0 else 1
    {
      var angle := o.angleDraw(pos');
      pos' := pos' + 1;
      coords' := SetToAngle(coords', rotor, angle, o);
      dist := MeasureDistance(coords', head, tail, o);
      var improves := Below(Finite(dist), best);
      accept := improves || MetropolisWeight(dist, best, o) > o.unitDraw(pos');
      pos' := pos' + (if improves then 0 else 1);
      if accept {
        best := Finite(dist);
      }
    }
  }

  /** The buffer after the first `count` rotors of one trial, the r-th one set to draw `pos + r`. */
  function Posed(coords: seq<real>, pos: nat, count: nat, o: Oracles): (r: seq<real>)
    ensures |r| == |coords|
  {
    if count == 0 then coords
    else SetToAngle(Posed(coords, pos, count - 1, o), count - 1, o.angleDraw(pos + count - 1), o)
  }

  /**
   * One trial of run: the rotors in iteration order, each sampled once. With no rotor the
   * distance stays +infinity, so the trial can never be admitted.
   */
  method SampleTrial(coords: seq<real>, numRotors: nat, pos: nat, head: nat, tail: nat, o: Oracles)
    returns (coords': seq<real>, curDist: Distance, pos': nat)
    requires Measurable(coords, head, tail)
    ensures coords' == Posed(coords, pos, numRotors, o)
    ensures pos' == pos + numRotors
    ensures curDist == if numRotors == 0 then Infinity else Finite(MeasureDistance(coords', head, tail, o))
  {
    coords', curDist, pos' := coords, Infinity, pos;
    var r := 0;
    while r < numRotors
      invariant 0 <= r <= numRotors
      invariant coords' == Posed(coords, pos, r, o) && pos' == pos + r
      invariant curDist == if r == 0 then Infinity else Finite(MeasureDistance(coords', head, tail, o))
    {
      var d;
      coords', d, pos' := SampleRotor(coords', r, pos', head, tail, o);
      curDist := Finite(d);
      r := r + 1;
    }
  }

  /** The buffer after `n` trials: each trial poses every rotor once, drawing on from where the last stopped. */
  function AfterTrials(coords: seq<real>, pos: nat, numRotors: nat, n: nat, o: Oracles): (r: seq<real>)
    ensures |r| == |coords|
  {
    if n == 0 then coords
    else Posed(AfterTrials(coords, pos, numRotors, n - 1, o), TrialStart(pos, numRotors, n - 1), numRotors, o)
  }

  /** The random engine's position when trial `n` starts: each trial consumes one draw per rotor. */
  function TrialStart(pos: nat, numRotors: nat, n: nat): nat {
    if n == 0 then pos else TrialStart(pos, numRotors, n - 1) + numRotors
  }

  /** The `cur_dist` a trial ends with: the last rotor's measured distance, +infinity with no rotor. */
  function TrialDistance(coords: seq<real>, numRotors: nat, head: nat, tail: nat, o: Oracles): Distance
    requires Measurable(coords, head, tail)
  {
    if numRotors == 0 then Infinity else Finite(MeasureDistance(coords, head, tail, o))
  }

  /** Trial i posed the buffer as `AfterTrials` says and ended at the distance measured on it. */
  ghost predicate SampledLog(trials: seq<Trial>, coords: seq<real>, pos: nat, numRotors: nat, head: nat, tail: nat, o: Oracles)
    requires Measurable(coords, head, tail)
  {
    forall i :: 0 <= i < |trials| ==>
      && trials[i].coords == AfterTrials(coords, pos, numRotors, i + 1, o)
      && trials[i].distance == TrialDistance(trials[i].coords, numRotors, head, tail, o)
  }

  /**
   * What one trial produced: its posed buffer, its final distance and, when that distance is
   * below the maximum, the conformer generated from the buffer.
   */
  datatype Trial = Trial(coords: seq<real>, distance: Distance, candidate: Option<Conformer>)

  /** The fields run fills in on a conformer it admits. */
  function Stamped(c: Conformer, searchIndex: nat, distance: real, coords: seq<real>): Conformer {
    c.(index := searchIndex, distance := distance, monomer := coords)
  }

  /**
   * The admission decision of trial `i`: a conformer is generated exactly when the distance
   * is strictly below the maximum, and it carries the trial's index, distance and buffer.
   */
  predicate Decided(t: Trial, i: nat, maxDistance: real, o: Oracles) {
    && (t.candidate.Some? <==> Below(t.distance, Finite(maxDistance)))
    && (t.candidate.Some? ==>
          t.distance.Finite? && t.candidate.value == Stamped(o.generate(t.coords), i, t.distance.value, t.coords))
  }

  /** The trials of a run, numbered from 0. */
  ghost predicate DecisionLog(trials: seq<Trial>, maxDistance: real, o: Oracles) {
    forall i :: 0 <= i < |trials| ==> Decided(trials[i], i, maxDistance, o)
  }

  predicate Admits(t: Trial, filter: seq<real>)
    requires |filter| <= 5
  {
    t.candidate.Some? && WithinCeilings(t.candidate.value, filter)
  }

  /** The record print keeps: the chain buffer is released before the push. */
  function Kept(c: Conformer): Conformer {
    c.(chainCoordsPresent := false)
  }

  /** The record one trial hands to the ledger, if any. */
  function AdmittedBy(t: Trial, filter: seq<real>): seq<Conformer>
    requires |filter| <= 5
  {
    if Admits(t, filter) then [Kept(t.candidate.value)] else []
  }

  /** The records a sequence of trials hands to the ledger, in trial order. */
  function AdmittedOf(trials: seq<Trial>, filter: seq<real>): seq<Conformer>
    requires |filter| <= 5
  {
    if trials == [] then []
    else AdmittedOf(trials[..|trials| - 1], filter) + AdmittedBy(trials[|trials| - 1], filter)
  }

  lemma AdmittedOfSnoc(trials: seq<Trial>, t: Trial, filter: seq<real>)
    requires |filter| <= 5
    ensures AdmittedOf(trials + [t], filter) == AdmittedOf(trials, filter) + AdmittedBy(t, filter)
  {
    assert (trials + [t])[..|trials|] == trials;
  }

  /**
   * Records from trials numbered below `bound`, in increasing trial order, each strictly
   * below the maximum distance and within every energy ceiling.
   */
  predicate AdmittedWell(a: seq<Conformer>, bound: nat, filter: seq<real>, maxDistance: real)
    requires |filter| <= 5
  {
    && (forall k :: 0 <= k < |a| ==>
          a[k].index < bound && a[k].distance < maxDistance && WithinCeilings(a[k], filter))
    && (forall k, l :: 0 <= k < l < |a| ==> a[k].index < a[l].index)
  }

  /**
   * Admitted records come from distinct trials in increasing order, each strictly below the
   * maximum distance and within every energy ceiling.
   */
  lemma {:induction false} AdmittedOrdered(trials: seq<Trial>, filter: seq<real>, maxDistance: real, o: Oracles)
    requires |filter| <= 5 && DecisionLog(trials, maxDistance, o)
    ensures AdmittedWell(AdmittedOf(trials, filter), |trials|, filter, maxDistance)
  {
    if trials != [] {
      var n := |trials| - 1;
      var init := trials[..n];
      assert DecisionLog(init, maxDistance, o) by {
        assert forall i :: 0 <= i < |init| ==> init[i] == trials[i];
      }
      AdmittedOrdered(init, filter, maxDistance, o);
      var a0 := AdmittedOf(init, filter);
      var last := trials[n];
      assert Decided(last, n, maxDistance, o);
      assert AdmittedOf(trials, filter) == a0 + AdmittedBy(last, filter);
      if Admits(last, filter) {
        var x := Kept(last.candidate.value);
        assert x.index == n && x.distance < maxDistance;
        assert EnergyValues(x) == EnergyValues(last.candidate.value);
        var a := a0 + [x];
        assert AdmittedOf(trials, filter) == a;
        forall k | 0 <= k < |a|
          ensures a[k].index < |trials| && a[k].distance < maxDistance && WithinCeilings(a[k], filter)
        {
          if k < |a0| {
            assert a[k] == a0[k];
          }
        }
        forall k, l | 0 <= k < l < |a|
          ensures a[k].index < a[l].index
        {
          assert a[k] == a0[k];
          if l < |a0| {
            assert a[l] == a0[l];
          }
        }
      } else {
        assert AdmittedOf(trials, filter) == a0;
      }
    }
  }

  predicate Distinct<T(==)>(s: seq<T>) {
    forall k, l :: 0 <= k < l < |s| ==> s[k] != s[l]
  }

  /** Structure files are written once per admitted record, never twice under one name. */
  lemma AdmittedFilesDistinct(trials: seq<Trial>, filter: seq<real>, maxDistance: real, o: Oracles)
    requires |filter| <= 5 && DecisionLog(trials, maxDistance, o)
    ensures Distinct(FileNames(AdmittedOf(trials, filter)))
  {
    var a := AdmittedOf(trials, filter);
    AdmittedOrdered(trials, filter, maxDistance, o);
    forall k, l | 0 <= k < l < |a|
      ensures FileName(a[k].index) != FileName(a[l].index)
    {
      assert a[k].index < a[l].index;
      FileNameInjective(a[k].index, a[l].index);
    }
  }

  lemma MultisetsAdd<T>(c0: seq<T>, c1: seq<T>, c: seq<T>, a: seq<T>, b: seq<T>)
    requires multiset(c1) == multiset(c0) + multiset(a)
    requires multiset(c) == multiset(c1) + multiset(b)
    ensures multiset(c) == multiset(c0) + multiset(a + b)
  {
  }

  lemma AppendAssoc<T>(x: seq<T>, y: seq<T>, z: seq<T>)
    ensures x + y + z == x + (y + z)
  {
  }

  lemma FileNamesConcat(a: seq<Conformer>, b: seq<Conformer>)
    ensures FileNames(a + b) == FileNames(a) + FileNames(b)
  {
  }

  datatype SearchError = NoChainCoordinates

  /** Records filled in by one run from an empty ledger: indices below the bound and distinct, distances below the maximum. */
  predicate FromOneRun(cs: seq<Conformer>, bound: nat, maxDistance: real) {
    && (forall i :: 0 <= i < |cs| ==> cs[i].index < bound && cs[i].distance < maxDistance)
    && (forall i, j :: 0 <= i < j < |cs| ==> cs[i].index != cs[j].index)
  }

  class MonteCarloRotorSearch {
    const searchSize: nat
    const maxDistance: real
    const energyFilter: seq<real>
    const lt: (Conformer, Conformer) -> bool
    const oracles: Oracles

    /** `conf_data_vec_`: the admitted records, best first. */
    var ledger: seq<Entry>
    /** `energy_data.csv` as print last rewrote it; None before the first admission. */
    var csv: Option<CsvFile>
    /** The structure files written, in order. */
    var written: seq<string>

    ghost predicate Valid()
      reads this
    {
      && |energyFilter| <= 5
      && StrictOrder(lt)
      && Sorted(ledger, lt)
      && (ledger == [] <==> csv == None)
      && (ledger != [] ==> csv == Some(CsvOf(ledger)) && RmsdFresh(ledger, oracles.rmsd))
    }

    constructor(searchSize: nat, maxDistance: real, energyFilter: seq<real>,
                lt: (Conformer, Conformer) -> bool, oracles: Oracles)
      requires |energyFilter| <= 5 && StrictOrder(lt)
      ensures Valid()
      ensures this.searchSize == searchSize && this.maxDistance == maxDistance
      ensures this.energyFilter == energyFilter && this.lt == lt && this.oracles == oracles
      ensures ledger == [] && csv == None && written == []
    {
      this.searchSize, this.maxDistance, this.energyFilter := searchSize, maxDistance, energyFilter;
      this.lt, this.oracles := lt, oracles;
      ledger, csv, written := [], None, [];
    }

    /**
     * `print`: refuses a record without chain coordinates (the `exit(1)` of the source);
     * otherwise writes the record's structure file, ranks the record into the ledger,
     * refreshes every RMSD against the new best record and rewrites the CSV file.
     */
    method Print(c: Conformer) returns (out: Outcome<SearchError>, ghost p: nat)
      requires Valid()
      modifies this
      ensures Valid()
      ensures out.Fail? <==> !c.chainCoordsPresent
      ensures out.Fail? ==> ledger == old(ledger) && written == old(written)
      ensures out.Pass? ==>
                && written == old(written) + [FileName(c.index)]
                && p <= |old(ledger)|
                && Confs(ledger) == Confs(old(ledger))[..p] + [Kept(c)] + Confs(old(ledger))[p..]
                && multiset(Confs(ledger)) == multiset(Confs(old(ledger))) + multiset{Kept(c)}
    {
      if !c.chainCoordsPresent {
        return Fail(NoChainCoordinates), 0;
      }
      var previous := ledger;
      written := written + [FileName(c.index)];
      // the rmsd the record carries in is overwritten by the refresh below
      var x := Entry(Kept(c), 0.0);
      var sorted;
      sorted, p := InsertSorted(previous, x, lt);
      ConfsOfInsert(previous, p, x);
      var rows;
      ledger, rows := RefreshRmsd(sorted, oracles.rmsd);
      csv := Some(CsvFile(CsvHeader, rows));
      SortedByData(sorted, ledger, lt);
      out := Pass;
    }

    /**
     * The body of run's trial loop after sampling: a trial whose distance is strictly below
     * the maximum has a conformer generated from its buffer; one within the energy ceilings
     * is stamped with the trial's index, distance and buffer and printed.
     */
    method AdmitTrial(searchIndex: nat, curDist: Distance, cur: seq<real>)
      returns (out: Outcome<SearchError>, ghost t: Trial)
      requires Valid()
      modifies this
      ensures Valid()
      ensures t.coords == cur && t.distance == curDist && Decided(t, searchIndex, maxDistance, oracles)
      ensures out.Fail? <==> Admits(t, energyFilter) && !t.candidate.value.chainCoordsPresent
      ensures out.Fail? ==> ledger == old(ledger) && written == old(written)
      ensures !Admits(t, energyFilter) ==> ledger == old(ledger) && written == old(written)
      ensures out.Pass? ==>
                && multiset(Confs(ledger)) == multiset(Confs(old(ledger))) + multiset(AdmittedBy(t, energyFilter))
                && written == old(written) + FileNames(AdmittedBy(t, energyFilter))
    {
      t := Trial(cur, curDist, None);
      out := Pass;
      if Below(curDist, Finite(maxDistance)) {
        var generated := oracles.generate(cur);
        var pass := IsPassingEFilter(generated, energyFilter);
        var data := Stamped(generated, searchIndex, curDist.value, cur);
        t := t.(candidate := Some(data));
        assert EnergyValues(data) == EnergyValues(generated);
        if pass {
          ghost var p;
          out, p := Print(data);
        }
      }
    }

    /** One iteration of run's trial loop: sample every rotor, then admit or discard. */
    method RunTrial(searchIndex: nat, ghost ledger0: seq<Entry>, ghost written0: seq<string>, ghost trials: seq<Trial>,
                    cur: seq<real>, drawn: nat, coords: seq<real>, pos: nat,
                    numRotors: nat, head: nat, tail: nat)
      returns (out: Outcome<SearchError>, cur': seq<real>, drawn': nat, ghost t: Trial)
      requires Valid() && searchIndex == |trials|
      requires RunSoFar(ledger0, written0, ledger, written, trials, cur, drawn, coords, pos,
                        numRotors, head, tail, maxDistance, energyFilter, oracles)
      modifies this
      ensures Valid()
      ensures out.Pass? ==> RunSoFar(ledger0, written0, ledger, written, trials + [t], cur', drawn', coords, pos,
                                     numRotors, head, tail, maxDistance, energyFilter, oracles)
      ensures out.Fail? ==> ledger == old(ledger) && written == old(written)
    {
      var curDist;
      cur', curDist, drawn' := SampleTrial(cur, numRotors, drawn, head, tail, oracles);
      ghost var ledger1, written1 := ledger, written;
      out, t := AdmitTrial(searchIndex, curDist, cur');
      if out.Pass? {
        RunSoFarSnoc(ledger0, written0, ledger1, written1, ledger, written, trials, cur, drawn, cur', drawn', t,
                     coords, pos, numRotors, head, tail, maxDistance, energyFilter, oracles);
      }
    }

    /**
     * `run`: `searchSize` trials, the rotor buffer and the random engine carried from one
     * trial to the next. `numRotors` is the number of rotors the rotor list found, and `pos`
     * the random engine's position on entry. The ghost `trials` records what each trial did.
     */
    method Run(numRotors: nat, head: nat, tail: nat, coords: seq<real>, pos: nat)
      returns (out: Outcome<SearchError>, ghost trials: seq<Trial>)
      requires Valid() && Measurable(coords, head, tail)
      modifies this
      ensures Valid()
      ensures out.Pass? ==> |trials| == searchSize
      ensures out.Fail? ==> |trials| < searchSize
      ensures SampledLog(trials, coords, pos, numRotors, head, tail, oracles)
      ensures DecisionLog(trials, maxDistance, oracles)
      ensures Accounted(old(ledger), old(written), ledger, written, trials, energyFilter)
      ensures numRotors == 0 ==> ledger == old(ledger) && written == old(written)
      ensures old(ledger) == [] ==> FromOneRun(Confs(ledger), |trials|, maxDistance)
      ensures old(written) == [] ==> Distinct(written)
    {
      ghost var ledger0, written0 := ledger, written;
      var cur, drawn := coords, pos;
      trials := [];
      for searchIndex := 0 to searchSize
        invariant Valid() && |trials| == searchIndex
        invariant RunSoFar(ledger0, written0, ledger, written, trials, cur, drawn, coords, pos,
                           numRotors, head, tail, maxDistance, energyFilter, oracles)
      {
        ghost var t;
        out, cur, drawn, t := RunTrial(searchIndex, ledger0, written0, trials, cur, drawn, coords, pos, numRotors, head, tail);
        if out.Fail? {
          RunSummary(ledger0, written0, ledger, written, trials, coords, pos, numRotors, head, tail,
                     maxDistance, energyFilter, oracles);
          return;
        }
        trials := trials + [t];
      }
      RunSummary(ledger0, written0, ledger, written, trials, coords, pos, numRotors, head, tail,
                 maxDistance, energyFilter, oracles);
      out := Pass;
    }
  }

  /** What the first `|trials|` trials of a run left behind. */
  ghost predicate RunSoFar(ledger0: seq<Entry>, written0: seq<string>, ledger: seq<Entry>, written: seq<string>,
                           trials: seq<Trial>, cur: seq<real>, drawn: nat, coords: seq<real>, pos: nat,
                           numRotors: nat, head: nat, tail: nat, maxDistance: real, filter: seq<real>, o: Oracles)
  {
    && |filter| <= 5
    && Measurable(coords, head, tail)
    && cur == AfterTrials(coords, pos, numRotors, |trials|, o)
    && drawn == TrialStart(pos, numRotors, |trials|)
    && SampledLog(trials, coords, pos, numRotors, head, tail, o)
    && DecisionLog(trials, maxDistance, o)
    && Accounted(ledger0, written0, ledger, written, trials, filter)
    && (numRotors == 0 ==> ledger == ledger0 && written == written0)
  }

  lemma RunSoFarSnoc(ledger0: seq<Entry>, written0: seq<string>, ledger1: seq<Entry>, written1: seq<string>,
                     ledger: seq<Entry>, written: seq<string>, trials: seq<Trial>,
                     cur: seq<real>, drawn: nat, cur': seq<real>, drawn': nat, t: Trial,
                     coords: seq<real>, pos: nat, numRotors: nat, head: nat, tail: nat,
                     maxDistance: real, filter: seq<real>, o: Oracles)
    requires RunSoFar(ledger0, written0, ledger1, written1, trials, cur, drawn, coords, pos,
                      numRotors, head, tail, maxDistance, filter, o)
    requires cur' == Posed(cur, drawn, numRotors, o) && drawn' == drawn + numRotors
    requires Measurable(cur', head, tail) && t.coords == cur'
    requires t.distance == if numRotors == 0 then Infinity else Finite(MeasureDistance(cur', head, tail, o))
    requires Decided(t, |trials|, maxDistance, o)
    requires multiset(Confs(ledger)) == multiset(Confs(ledger1)) + multiset(AdmittedBy(t, filter))
    requires written == written1 + FileNames(AdmittedBy(t, filter))
    requires !Admits(t, filter) ==> ledger == ledger1 && written == written1
    ensures RunSoFar(ledger0, written0, ledger, written, trials + [t], cur', drawn', coords, pos,
                     numRotors, head, tail, maxDistance, filter, o)
  {
    LogsSnoc(trials, cur, t, coords, pos, numRotors, head, tail, maxDistance, o);
    AccountedSnoc(ledger0, written0, ledger1, written1, ledger, written, trials, t, filter);
    if numRotors == 0 {
      assert !Admits(t, filter);
    }
  }

  /** The ledger and the file list hold what they held before plus what the trials admitted. */
  ghost predicate Accounted(ledger0: seq<Entry>, written0: seq<string>, ledger: seq<Entry>, written: seq<string>,
                            trials: seq<Trial>, filter: seq<real>)
    requires |filter| <= 5
  {
    && multiset(Confs(ledger)) == multiset(Confs(ledger0)) + multiset(AdmittedOf(trials, filter))
    && written == written0 + FileNames(AdmittedOf(trials, filter))
  }

  lemma AccountedSnoc(ledger0: seq<Entry>, written0: seq<string>, ledger1: seq<Entry>, written1: seq<string>,
                      ledger: seq<Entry>, written: seq<string>, trials: seq<Trial>, t: Trial, filter: seq<real>)
    requires |filter| <= 5
    requires Accounted(ledger0, written0, ledger1, written1, trials, filter)
    requires multiset(Confs(ledger)) == multiset(Confs(ledger1)) + multiset(AdmittedBy(t, filter))
    requires written == written1 + FileNames(AdmittedBy(t, filter))
    ensures Accounted(ledger0, written0, ledger, written, trials + [t], filter)
  {
    var a, b := AdmittedOf(trials, filter), AdmittedBy(t, filter);
    AdmittedOfSnoc(trials, t, filter);
    MultisetsAdd(Confs(ledger0), Confs(ledger1), Confs(ledger), a, b);
    FileNamesConcat(a, b);
    AppendAssoc(written0, FileNames(a), FileNames(b));
  }

  /** One more trial, sampled from where the previous ones left the buffer, extends both logs. */
  lemma LogsSnoc(trials: seq<Trial>, prev: seq<real>, t: Trial, coords: seq<real>, pos: nat, numRotors: nat,
                 head: nat, tail: nat, maxDistance: real, o: Oracles)
    requires Measurable(coords, head, tail)
    requires SampledLog(trials, coords, pos, numRotors, head, tail, o) && DecisionLog(trials, maxDistance, o)
    requires prev == AfterTrials(coords, pos, numRotors, |trials|, o)
    requires t.coords == Posed(prev, TrialStart(pos, numRotors, |trials|), numRotors, o)
    requires t.distance == if numRotors == 0 then Infinity else Finite(MeasureDistance(t.coords, head, tail, o))
    requires Decided(t, |trials|, maxDistance, o)
    ensures t.coords == AfterTrials(coords, pos, numRotors, |trials| + 1, o)
    ensures SampledLog(trials + [t], coords, pos, numRotors, head, tail, o)
    ensures DecisionLog(trials + [t], maxDistance, o)
  {
    assert forall i :: 0 <= i < |trials| ==> (trials + [t])[i] == trials[i];
  }

  /**
   * What a run guarantees beyond its accounting: with no rotor nothing is admitted; from an
   * empty ledger, the ledger ends up holding distinct trial indices below the number of
   * trials, each below the maximum distance; from an empty file list, no file name repeats.
   */
  lemma RunSummary(ledger0: seq<Entry>, written0: seq<string>, ledger: seq<Entry>, written: seq<string>,
                   trials: seq<Trial>, coords: seq<real>, pos: nat, numRotors: nat, head: nat, tail: nat,
                   maxDistance: real, filter: seq<real>, o: Oracles)
    requires |filter| <= 5 && Measurable(coords, head, tail)
    requires Accounted(ledger0, written0, ledger, written, trials, filter)
    requires SampledLog(trials, coords, pos, numRotors, head, tail, o) && DecisionLog(trials, maxDistance, o)
    ensures numRotors == 0 ==> multiset(Confs(ledger)) == multiset(Confs(ledger0)) && written == written0
    ensures ledger0 == [] ==> FromOneRun(Confs(ledger), |trials|, maxDistance)
    ensures written0 == [] ==> Distinct(written)
  {
    var a := AdmittedOf(trials, filter);
    if numRotors == 0 {
      NoRotorsAdmitNothing(trials, coords, pos, head, tail, maxDistance, filter, o);
      assert FileNames(a) == [];
    }
    AdmittedOrdered(trials, filter, maxDistance, o);
    if ledger0 == [] {
      assert Confs(ledger0) == [];
      OneRunLedger(Confs(ledger), a, |trials|, filter, maxDistance);
    }
    if written0 == [] {
      AdmittedFilesDistinct(trials, filter, maxDistance, o);
      assert written == FileNames(a);
    }
  }

  /** With no rotor every trial ends at +infinity, so no trial admits anything. */
  lemma {:induction false} NoRotorsAdmitNothing(trials: seq<Trial>, coords: seq<real>, pos: nat, head: nat, tail: nat,
                                               maxDistance: real, filter: seq<real>, o: Oracles)
    requires |filter| <= 5 && Measurable(coords, head, tail)
    requires SampledLog(trials, coords, pos, 0, head, tail, o) && DecisionLog(trials, maxDistance, o)
    ensures AdmittedOf(trials, filter) == []
  {
    if trials != [] {
      var n := |trials| - 1;
      var init := trials[..n];
      assert forall i :: 0 <= i < n ==> init[i] == trials[i];
      NoRotorsAdmitNothing(init, coords, pos, head, tail, maxDistance, filter, o);
      assert trials[n].distance == Infinity;
      assert Decided(trials[n], n, maxDistance, o);
    }
  }

  /**
   * A ledger holding, as a multiset, exactly the records of increasing distinct trial
   * indices holds distinct indices itself.
   */
  lemma OneRunLedger(cs: seq<Conformer>, a: seq<Conformer>, bound: nat, filter: seq<real>, maxDistance: real)
    requires |filter| <= 5
    requires multiset(cs) == multiset(a) && AdmittedWell(a, bound, filter, maxDistance)
    ensures FromOneRun(cs, bound, maxDistance)
  {
    forall i | 0 <= i < |cs|
      ensures exists k :: 0 <= k < |a| && a[k] == cs[i]
    {
      assert cs[i] in multiset(cs);
      assert cs[i] in a;
    }
    forall i, j | 0 <= i < j < |cs|
      ensures cs[i].index != cs[j].index
    {
      var k :| 0 <= k < |a| && a[k] == cs[i];
      var l :| 0 <= l < |a| && a[l] == cs[j];
      if k == l {
        OccursTwice(cs, i, j);
        AtMostOnce(a, cs[i]);
      }
    }
  }

  lemma OccursTwice<T>(s: seq<T>, i: nat, j: nat)
    requires i < j < |s| && s[i] == s[j]
    ensures multiset(s)[s[i]] >= 2
  {
    assert s == s[..j] + [s[j]] + s[j + 1..];
    assert s[..j][i] == s[i];
  }

  /** Records of strictly increasing indices are all different. */
  lemma {:induction false} AtMostOnce(a: seq<Conformer>, x: Conformer)
    requires forall k, l :: 0 <= k < l < |a| ==> a[k].index < a[l].index
    ensures multiset(a)[x] <= 1
  {
    if a != [] {
      var n := |a| - 1;
      var init := a[..n];
      AtMostOnce(init, x);
      assert a == init + [a[n]];
      if a[n] == x {
        assert forall k :: 0 <= k < n ==> init[k] != x;
        assert x !in init;
      }
    }
  }

  lemma ConfsOfInsert(s: seq<Entry>, p: nat, x: Entry)
    requires p <= |s|
    ensures Confs(s[..p] + [x] + s[p..]) == Confs(s)[..p] + [x.data] + Confs(s)[p..]
    ensures multiset(Confs(s[..p] + [x] + s[p..])) == multiset(Confs(s)) + multiset{x.data}
  {
    var c := Confs(s);
    assert Confs(s[..p] + [x] + s[p..]) == c[..p] + [x.data] + c[p..];
    assert c == c[..p] + c[p..];
  }

  /** Sortedness is a property of the records alone, not of their RMSD. */
  lemma SortedByData(a: seq<Entry>, b: seq<Entry>, lt: (Conformer, Conformer) -> bool)
    requires Confs(a) == Confs(b) && Sorted(a, lt)
    ensures Sorted(b, lt)
  {
    assert forall i :: 0 <= i < |b| ==> b[i].data == Confs(b)[i] == Confs(a)[i] == a[i].data;
  }
}
