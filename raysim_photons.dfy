/**
  The older photon of the ray simulator (raysim/photons.py): a photon that
  carries a spectrum of wavelengths normalised to sum to one, and a colour
  looked up as the floor entry of a sixteen-entry table. Its hit tests are
  textually those of raysim/photon.py and are modelled once, in RaysimPhoton.
 */
module RaysimPhotons {
  import opened Wrappers
  import opened RaysimGeometry
  import RealFacts
  import Color = RaysimColor

  /** An entry of the colour table: its key wavelength, its colour and the colour's hex code. */
  datatype Swatch = Swatch(key: int, rgb: Color.Rgb, hex: string)

  /** The table of `wavelength_to_color`, in the order of its keys, written in four runs of four. */
  const Table: seq<Swatch> := From380 + From483 + From573 + From588

  /** The entries with keys from 380 to 478. */
  const From380: seq<Swatch> := [
    Swatch(380, Color.Rgb(41, 33, 85), "#292155"),
    Swatch(440, Color.Rgb(46, 39, 108), "#2e276c"),
    Swatch(466, Color.Rgb(33, 57, 117), "#213975"),
    Swatch(478, Color.Rgb(12, 71, 105), "#0c4769")
  ]

  /** The entries with keys from 483 to 541. */
  const From483: seq<Swatch> := [
    Swatch(483, Color.Rgb(18, 81, 99), "#125163"),
    Swatch(490, Color.Rgb(12, 115, 96), "#0c7360"),
    Swatch(510, Color.Rgb(39, 171, 109), "#27ab6d"),
    Swatch(541, Color.Rgb(98, 178, 46), "#62b22e")
  ]

  /** The entries with keys from 573 to 584. */
  const From573: seq<Swatch> := [
    Swatch(573, Color.Rgb(202, 179, 6), "#cab306"),
    Swatch(575, Color.Rgb(211, 169, 12), "#d3a90c"),
    Swatch(579, Color.Rgb(214, 147, 6), "#d69306"),
    Swatch(584, Color.Rgb(222, 132, 9), "#de8409")
  ]

  /** The entries with keys from 588 to 622. */
  const From588: seq<Swatch> := [
    Swatch(588, Color.Rgb(231, 120, 6), "#e77806"),
    Swatch(593, Color.Rgb(233, 83, 19), "#e95313"),
    Swatch(605, Color.Rgb(228, 11, 36), "#e40b24"),
    Swatch(622, Color.Rgb(121, 20, 38), "#791426")
  ]

  /** The keys of a table ascend strictly. */
  predicate Ascending(table: seq<Swatch>) {
    forall i, j :: 0 <= i < j < |table| ==> table[i].key < table[j].key
  }

  /**
    The table has sixteen entries from 380 to 622 and its keys ascend, so
    `min(colors)` is the first key and iteration visits the keys in order.
   */
  lemma TableKeys()
    ensures |Table| == 16 && Table[0].key == 380 && Table[15].key == 622
    ensures Ascending(Table)
  {
    AdjacentKeysAscend();
    forall i, j | 0 <= i < j < |Table|
      ensures Table[i].key < Table[j].key
    {
      KeysAscendFrom(Table, i, j);
    }
  }

  lemma AdjacentKeysAscend()
    ensures forall i :: 0 <= i < |Table| - 1 ==> Table[i].key < Table[i + 1].key
  {
  }

  lemma {:induction false} KeysAscendFrom(table: seq<Swatch>, i: int, j: int)
    requires 0 <= i < j < |table|
    requires forall k :: 0 <= k < |table| - 1 ==> table[k].key < table[k + 1].key
    ensures table[i].key < table[j].key
    decreases j - i
  {
    if i + 1 < j {
      KeysAscendFrom(table, i + 1, j);
    }
  }

  /** The index of the floor entry: the largest key at most w, or the first entry when w is below every key. */
  function FloorIndex(table: seq<Swatch>, w: real): (i: nat)
    requires |table| > 0
    ensures i < |table|
    ensures i == 0 || table[i].key as real <= w
    ensures i == |table| - 1 || w < table[i + 1].key as real
  {
    FloorFrom(table, w, 0)
  }

  function FloorFrom(table: seq<Swatch>, w: real, i: nat): (f: nat)
    requires i < |table|
    requires i == 0 || table[i].key as real <= w
    ensures i <= f < |table|
    ensures f == 0 || table[f].key as real <= w
    ensures f == |table| - 1 || w < table[f + 1].key as real
    decreases |table| - i
  {
    if i + 1 < |table| && table[i + 1].key as real <= w then FloorFrom(table, w, i + 1) else i
  }

  /**
    In an ascending table the floor entry has the largest key at most w;
    below the first key it is the first entry, from the last key on the last.
   */
  lemma FloorIndexIsFloor(table: seq<Swatch>, w: real)
    requires |table| > 0 && Ascending(table)
    ensures forall j :: 0 <= j < |table| && table[j].key as real <= w ==> j <= FloorIndex(table, w)
    ensures w < table[0].key as real ==> FloorIndex(table, w) == 0
    ensures table[|table| - 1].key as real <= w ==> FloorIndex(table, w) == |table| - 1
  {
    var i := FloorIndex(table, w);
    forall j | 0 <= j < |table| && table[j].key as real <= w
      ensures j <= i
    {
    }
  }

  /** In an ascending table, an index meets the floor conditions only if it is the floor index. */
  lemma FloorIndexUnique(table: seq<Swatch>, w: real, j: int)
    requires Ascending(table)
    requires 0 <= j < |table|
    requires j == 0 || table[j].key as real <= w
    requires j == |table| - 1 || w < table[j + 1].key as real
    ensures j == FloorIndex(table, w)
  {
    FloorIndexIsFloor(table, w);
    var i := FloorIndex(table, w);
  }

  /**
    The loop of `wavelength_to_color`: walk the keys in order, remembering
    the last key passed, and return its entry at the first key above the
    wavelength; past the last key, return the last entry.
   */
  method FloorLookup(table: seq<Swatch>, w: real) returns (e: Swatch)
    requires |table| > 0 && Ascending(table)
    ensures e == table[FloorIndex(table, w)]
    ensures e in table
  {
    var latest := 0;
    var i := 0;
    while i < |table|
      invariant 0 <= i <= |table|
      invariant latest == if i == 0 then 0 else i - 1
      invariant i == 0 || table[i - 1].key as real <= w
    {
      if w < table[i].key as real {
        FloorIndexUnique(table, w, latest);
        return table[latest];
      }
      latest := i;
      i := i + 1;
    }
    FloorIndexUnique(table, w, |table| - 1);
    e := table[|table| - 1];
  }

  /** `wavelength_to_color`: the floor entry of the colour table, always one of its entries. */
  method WavelengthToColor(w: real) returns (e: Swatch)
    ensures e == Table[FloorIndex(Table, w)]
    ensures e in Table
  {
    TableKeys();
    e := FloorLookup(Table, w);
  }

  /** The colour part (`[:3]`) of the floor entry. */
  function ColorOf(w: real): Color.Rgb {
    Table[FloorIndex(Table, w)].rgb
  }

  /**
    Wavelengths below 380 take the 380 entry's colour, wavelengths from 622
    on the 622 entry's; in between, the colour is the entry's of the largest
    key at most the wavelength.
   */
  lemma ColorOfBands(w: real)
    ensures w < 380.0 ==> ColorOf(w) == Color.Rgb(41, 33, 85)
    ensures 622.0 <= w ==> ColorOf(w) == Color.Rgb(121, 20, 38)
    ensures forall j :: 0 <= j < |Table| && Table[j].key as real <= w ==> Table[j].key <= Table[FloorIndex(Table, w)].key
  {
    TableKeys();
    FloorIndexIsFloor(Table, w);
    var i := FloorIndex(Table, w);
    forall j | 0 <= j < |Table| && Table[j].key as real <= w
      ensures Table[j].key <= Table[i].key
    {
      if j < i {
        assert Table[j].key < Table[i].key;
      }
    }
  }

  /** The two digits `'%02x'` emits for a byte. */
  lemma ByteDigits(c: int)
    requires Color.IsByte(c)
    ensures Color.Format02x(c) == [Color.HexDigit(c / 16), Color.HexDigit(c % 16)]
  {
    if c < 16 {
      assert Color.HexDigits(c) == [Color.HexDigit(c)];
    } else {
      assert Color.HexDigits(c / 16) == [Color.HexDigit(c / 16)];
    }
  }

  /** Every hex code of the table is the one `rbg_to_hex` gives for its colour. */
  lemma TableHexCodes()
    ensures forall e :: e in Table ==> e.hex == Color.RbgToHex(e.rgb, None)
  {
    HexCodes380();
    HexCodes483();
    HexCodes573();
    HexCodes588();
  }

  lemma HexCodes380()
    ensures forall e :: e in From380 ==> e.hex == Color.RbgToHex(e.rgb, None)
  {
    forall e | e in From380
      ensures e.hex == Color.RbgToHex(e.rgb, None)
    {
      SwatchHex(e);
    }
  }

  lemma HexCodes483()
    ensures forall e :: e in From483 ==> e.hex == Color.RbgToHex(e.rgb, None)
  {
    forall e | e in From483
      ensures e.hex == Color.RbgToHex(e.rgb, None)
    {
      SwatchHex(e);
    }
  }

  lemma HexCodes573()
    ensures forall e :: e in From573 ==> e.hex == Color.RbgToHex(e.rgb, None)
  {
    forall e | e in From573
      ensures e.hex == Color.RbgToHex(e.rgb, None)
    {
      SwatchHex(e);
    }
  }

  lemma HexCodes588()
    ensures forall e :: e in From588 ==> e.hex == Color.RbgToHex(e.rgb, None)
  {
    forall e | e in From588
      ensures e.hex == Color.RbgToHex(e.rgb, None)
    {
      SwatchHex(e);
    }
  }

  /** A swatch's hex code, once its channels are bytes, is '#' and two digits per channel. */
  lemma SwatchHex(s: Swatch)
    requires Color.IsByteRgb(s.rgb)
    ensures Color.RbgToHex(s.rgb, None) ==
      ['#', Color.HexDigit(s.rgb.r / 16), Color.HexDigit(s.rgb.r % 16),
            Color.HexDigit(s.rgb.g / 16), Color.HexDigit(s.rgb.g % 16),
            Color.HexDigit(s.rgb.b / 16), Color.HexDigit(s.rgb.b % 16)]
  {
    ByteDigits(s.rgb.r);
    ByteDigits(s.rgb.g);
    ByteDigits(s.rgb.b);
  }

  /** A line of the spectrum dict: a wavelength key and its weight. */
  datatype Line = Line(wavelength: real, weight: real)

  /** The spectrum dict, in insertion order; its keys are distinct, but no property here depends on that. */
  type Spectrum = seq<Line>

  /** `sum(wavelengths.values())`. */
  function WeightSum(sp: Spectrum): real {
    if |sp| == 0 then 0.0 else WeightSum(sp[..|sp| - 1]) + sp[|sp| - 1].weight
  }

  /** The sum of the wavelengths weighted by their weights. */
  function MomentSum(sp: Spectrum): real {
    if |sp| == 0 then 0.0 else MomentSum(sp[..|sp| - 1]) + sp[|sp| - 1].wavelength * sp[|sp| - 1].weight
  }

  /** `np.average(keys, weights = values)`: fails when the weights sum to zero. */
  function Average(sp: Spectrum): (r: Result<real, PyError>)
    ensures r.Failure? <==> WeightSum(sp) == 0.0
    ensures r.Failure? ==> r.error == ZeroDivisionError
    ensures r.Success? ==> r.value * WeightSum(sp) == MomentSum(sp)
  {
    var total := WeightSum(sp);
    if total == 0.0 then Failure(ZeroDivisionError) else Success(MomentSum(sp) / total)
  }

  /** Every weight divided by the total; the keys are kept in order. */
  function Normalised(sp: Spectrum, total: real): (r: Spectrum)
    requires total != 0.0
    ensures |r| == |sp|
    ensures forall k :: 0 <= k < |sp| ==> r[k].wavelength == sp[k].wavelength && r[k].weight * total == sp[k].weight
  {
    seq(|sp|, k requires 0 <= k < |sp| => Line(sp[k].wavelength, sp[k].weight / total))
  }

  /** Dividing every weight by the total divides their sum by it. */
  lemma {:induction false} NormalisedSum(sp: Spectrum, total: real)
    requires total != 0.0
    ensures WeightSum(Normalised(sp, total)) == WeightSum(sp) / total
    decreases |sp|
  {
    if |sp| > 0 {
      var n := |sp| - 1;
      assert Normalised(sp, total)[..n] == Normalised(sp[..n], total);
      NormalisedSum(sp[..n], total);
    }
  }

  /** Normalising by the spectrum's own sum makes the weights sum to one. */
  lemma NormalisedSumsToOne(sp: Spectrum)
    requires WeightSum(sp) != 0.0
    ensures WeightSum(Normalised(sp, WeightSum(sp))) == 1.0
  {
    var total := WeightSum(sp);
    NormalisedSum(sp, total);
    assert total / total == 1.0;
  }

  predicate WavelengthsWithin(sp: Spectrum, lo: real, hi: real) {
    forall k :: 0 <= k < |sp| ==> lo <= sp[k].wavelength <= hi
  }

  predicate NonNegativeWeights(sp: Spectrum) {
    forall k :: 0 <= k < |sp| ==> 0.0 <= sp[k].weight
  }

  /** One more line keeps the weighted sum between lo and hi times the weight sum. */
  lemma BoundStep(lo: real, hi: real, w: real, m: real, x: real, y: real, w': real, m': real)
    requires lo * w <= m <= hi * w && lo <= x <= hi && 0.0 <= y
    requires w' == w + y && m' == m + x * y
    ensures lo * w' <= m' <= hi * w'
  {
    RealFacts.NonNegativeProduct(x - lo, y);
    RealFacts.NonNegativeProduct(hi - x, y);
  }

  /** Dropping the last line keeps the keys within bounds and the weights non-negative. */
  lemma PrefixWithin(sp: Spectrum, lo: real, hi: real)
    requires |sp| > 0 && WavelengthsWithin(sp, lo, hi) && NonNegativeWeights(sp)
    ensures WavelengthsWithin(sp[..|sp| - 1], lo, hi) && NonNegativeWeights(sp[..|sp| - 1])
  {
  }

  /** With non-negative weights, the weighted sum lies between lo and hi times the weight sum. */
  lemma {:induction false} MomentBounds(sp: Spectrum, lo: real, hi: real)
    requires WavelengthsWithin(sp, lo, hi) && NonNegativeWeights(sp)
    ensures lo * WeightSum(sp) <= MomentSum(sp) <= hi * WeightSum(sp)
    decreases |sp|
  {
    if |sp| > 0 {
      var n := |sp| - 1;
      var prefix := sp[..n];
      var x, y := sp[n].wavelength, sp[n].weight;
      var w, m := WeightSum(prefix), MomentSum(prefix);
      assert lo <= x <= hi && 0.0 <= y;
      assert WeightSum(sp) == w + y && MomentSum(sp) == m + x * y;
      assert lo * w <= m <= hi * w by {
        PrefixWithin(sp, lo, hi);
        MomentBounds(prefix, lo, hi);
      }
      BoundStep(lo, hi, w, m, x, y, WeightSum(sp), MomentSum(sp));
    }
  }

  /**
    With non-negative weights of positive sum, the weighted mean lies between
    any bounds of the keys: between the smallest and the largest key.
   */
  lemma AverageWithin(sp: Spectrum, lo: real, hi: real)
    requires WavelengthsWithin(sp, lo, hi) && NonNegativeWeights(sp) && WeightSum(sp) > 0.0
    ensures Average(sp).Success?
    ensures lo <= Average(sp).value <= hi
  {
    var mean := Average(sp);
    var total, moment := WeightSum(sp), MomentSum(sp);
    assert mean.Success? && mean.value * total == moment;
    assert lo * total <= moment <= hi * total by {
      MomentBounds(sp, lo, hi);
    }
    RealFacts.QuotientBounds(mean.value, total, moment, lo, hi);
  }

  /** What `Photon.__init__` derives from its wavelength arguments. */
  datatype Spectral = Spectral(wavelength: real, wavelengths: Spectrum)

  /**
    `Photon.__init__`'s spectrum handling: with no dict given the spectrum
    is {wavelength: intensity}; otherwise the wavelength becomes the weighted
    mean of the keys. The weights are then divided by their sum. Both
    divisions fail on a zero sum.
   */
  function Prepare(wavelength: real, intensity: real, wavelengths: Spectrum): (r: Result<Spectral, PyError>)
    ensures r.Failure? ==> r.error == ZeroDivisionError
  {
    var given := |wavelengths| > 0;
    var sp := if given then wavelengths else [Line(wavelength, intensity)];
    var mean := if given then Average(wavelengths) else Success(wavelength);
    if mean.Failure? then Failure(mean.error)
    else if WeightSum(sp) == 0.0 then Failure(ZeroDivisionError)
    else Success(Spectral(mean.value, Normalised(sp, WeightSum(sp))))
  }

  /**
    With no dict, construction fails exactly when the intensity is zero;
    otherwise the wavelength is kept and the spectrum is {wavelength: 1}.
   */
  lemma PrepareDefault(wavelength: real, intensity: real)
    ensures Prepare(wavelength, intensity, []).Failure? <==> intensity == 0.0
    ensures Prepare(wavelength, intensity, []).Success? ==>
      Prepare(wavelength, intensity, []).value.wavelength == wavelength
      && Prepare(wavelength, intensity, []).value.wavelengths == [Line(wavelength, 1.0)]
  {
    var sp := [Line(wavelength, intensity)];
    assert WeightSum(sp) == intensity by {
      assert sp[..0] == [];
    }
    if intensity != 0.0 {
      assert intensity / intensity == 1.0;
      assert Normalised(sp, intensity) == [Line(wavelength, 1.0)];
    }
  }

  /**
    With a dict, construction fails exactly when its weights sum to zero.
    Otherwise the keys are kept in order, the normalised weights sum to one,
    and with non-negative weights the wavelength lies between any bounds of
    the keys.
   */
  lemma PrepareGiven(wavelength: real, intensity: real, wavelengths: Spectrum)
    requires |wavelengths| > 0
    ensures Prepare(wavelength, intensity, wavelengths).Failure? <==> WeightSum(wavelengths) == 0.0
    ensures var r := Prepare(wavelength, intensity, wavelengths);
      r.Success? ==>
        && WeightSum(r.value.wavelengths) == 1.0
        && |r.value.wavelengths| == |wavelengths|
        && (forall k :: 0 <= k < |wavelengths| ==> r.value.wavelengths[k].wavelength == wavelengths[k].wavelength)
        && r.value.wavelength * WeightSum(wavelengths) == MomentSum(wavelengths)
    ensures forall lo, hi ::
      (WavelengthsWithin(wavelengths, lo, hi) && NonNegativeWeights(wavelengths)
       && Prepare(wavelength, intensity, wavelengths).Success?) ==>
        lo <= Prepare(wavelength, intensity, wavelengths).value.wavelength <= hi
  {
    if WeightSum(wavelengths) != 0.0 {
      NormalisedSumsToOne(wavelengths);
    }
    forall lo, hi | WavelengthsWithin(wavelengths, lo, hi) && NonNegativeWeights(wavelengths)
      && Prepare(wavelength, intensity, wavelengths).Success?
      ensures lo <= Prepare(wavelength, intensity, wavelengths).value.wavelength <= hi
    {
      if WeightSum(wavelengths) < 0.0 {
        NonNegativeSum(wavelengths);
      }
      AverageWithin(wavelengths, lo, hi);
    }
  }

  /** Non-negative weights have a non-negative sum. */
  lemma {:induction false} NonNegativeSum(sp: Spectrum)
    requires NonNegativeWeights(sp)
    ensures 0.0 <= WeightSum(sp)
    decreases |sp|
  {
    if |sp| > 0 {
      NonNegativeSum(sp[..|sp| - 1]);
    }
  }

  /** The state of a photon of raysim/photons.py, as a value. */
  datatype SpectralRay = SpectralRay(
    pos: Point,
    dir: real,
    dx: real,
    positions: seq<Point>,
    directions: seq<real>,
    n: real,
    intensity: real,
    stopped: bool,
    touching: Option<nat>,
    spectral: Spectral,
    color: Color.Rgb)

  /** The history is never empty and ends at the current position. */
  predicate EndsAtPos(s: SpectralRay) {
    |s.positions| > 0 && s.positions[|s.positions| - 1] == s.pos
  }

  /** A photon of raysim/photons.py; `touching` is the index of the system in contact. */
  class Photon {
    var pos: Point
    var dir: real
    var dx: real
    var positions: seq<Point>
    var directions: seq<real>
    var n: real
    var intensity: real
    var stopped: bool
    var touching: Option<nat>
    var wavelength: real
    var wavelengths: Spectrum
    var color: Color.Rgb

    function State(): SpectralRay
      reads this
    {
      SpectralRay(pos, dir, dx, positions, directions, n, intensity, stopped, touching,
                  Spectral(wavelength, wavelengths), color)
    }

    /** The fields `__init__` sets, once its spectrum is prepared. */
    constructor(pos: Point, dir: real, dx: real, n: real, intensity: real, touching: Option<nat>,
                s: Spectral, color: Color.Rgb)
      ensures State() == SpectralRay(pos, dir, dx, [pos], [dir], n, intensity, false, touching, s, color)
    {
      this.pos := pos;
      this.dir := dir;
      this.dx := dx;
      positions := [pos];
      directions := [dir];
      this.n := n;
      this.intensity := intensity;
      stopped := false;
      this.touching := touching;
      wavelength, wavelengths, this.color := s.wavelength, s.wavelengths, color;
    }

    /**
      `Photon.__init__`: a one-point history, not stopped; the spectrum is
      prepared step by step and the colour looked up in the table. A zero
      weight sum raises ZeroDivisionError.
     */
    static method Create(pos: Point, dir: real, dx: real, n: real, intensity: real, touching: Option<nat>,
                         wavelength: real, wavelengths: Spectrum) returns (r: Result<Photon, PyError>)
      ensures var p := Prepare(wavelength, intensity, wavelengths);
        && (r.Failure? <==> p.Failure?)
        && (r.Failure? ==> r.error == p.error)
        && (r.Success? ==>
              fresh(r.value)
              && r.value.State() == SpectralRay(pos, dir, dx, [pos], [dir], n, intensity, false, touching,
                                              p.value, ColorOf(p.value.wavelength)))
      ensures r.Success? ==> EndsAtPos(r.value.State())
    {
      var sp := wavelengths;
      var mean := wavelength;
      if |wavelengths| == 0 {
        sp := [Line(wavelength, intensity)];
      } else {
        var avg := Average(wavelengths);
        if avg.Failure? {
          return Failure(avg.error);
        }
        mean := avg.value;
      }
      var total := WeightSum(sp);
      if total == 0.0 {
        return Failure(ZeroDivisionError);
      }
      var e := WavelengthToColor(mean);
      var photon := new Photon(pos, dir, dx, n, intensity, touching, Spectral(mean, Normalised(sp, total)), e.rgb);
      r := Success(photon);
    }

    /** `Photon.move`: step along dir and append the new position; nothing else changes. */
    method Move(m: MathLib)
      modifies this
      ensures pos == NewPos(m, old(dir), old(pos), old(dx))
      ensures State() == old(State()).(pos := pos, positions := old(positions) + [pos])
      ensures EndsAtPos(State())
    {
      pos := NewPos(m, dir, pos, dx);
      positions := positions + [pos];
    }
  }
}
