/**
 * The lookup tables of `utilities.py`: angular-unit conversion factors and the
 * SI-prefix symbols and multipliers, and the directory-name helper.
 */
module Utilities {
  import opened Results
  import opened Numerics

  /** `unitConvDict`: the factor that turns an increment in the first unit into the second. */
  const UnitConv: map<(string, string), real> := map[
    ("rad", "rad") := 1.0,
    ("arcsec", "arcsec") := 1.0,
    ("rad", "arcsec") := (3600.0 * 180.0) / Pi,
    ("arcsec", "rad") := Pi / (3600.0 * 180.0)
  ]

  /** `unitConvDict[(from, to)]`, with the `KeyError` of a missing pair as `None`. */
  function ConversionFactor(from: string, to: string): Option<real>
  {
    if (from, to) in UnitConv then Some(UnitConv[(from, to)]) else None
  }

  /** The pairs the table supports, listed independently of the table. */
  predicate SupportedPair(from: string, to: string)
  {
    || (from == "rad" && to == "rad")
    || (from == "arcsec" && to == "arcsec")
    || (from == "rad" && to == "arcsec")
    || (from == "arcsec" && to == "rad")
  }

  /** The table holds exactly four pairs, and a lookup succeeds exactly on those. */
  lemma UnitTableShape(from: string, to: string)
    ensures |UnitConv| == 4
    ensures ConversionFactor(from, to).Some? <==> SupportedPair(from, to)
  {
    assert UnitConv.Keys == {("rad", "rad"), ("arcsec", "arcsec"), ("rad", "arcsec"), ("arcsec", "rad")};
    assert "rad" != "arcsec";
  }

  /** The lookup yields the table's entry for a supported pair and fails for any other. */
  lemma FactorLookup(from: string, to: string)
    ensures SupportedPair(from, to) ==> (from, to) in UnitConv && ConversionFactor(from, to) == Some(UnitConv[(from, to)])
    ensures !SupportedPair(from, to) ==> ConversionFactor(from, to) == None
  {
    UnitTableShape(from, to);
  }

  /** Converting a unit to itself multiplies by 1, whichever supported unit it is. */
  lemma IdentityFactor(unit: string)
    requires ConversionFactor(unit, unit).Some?
    ensures ConversionFactor(unit, unit) == Some(1.0)
  {
    assert "rad" != "arcsec";
  }

  /** The two cross factors are reciprocal, and every factor is positive. */
  lemma CrossFactorsReciprocal(from: string, to: string)
    ensures UnitConv[("rad", "arcsec")] * UnitConv[("arcsec", "rad")] == 1.0
    ensures ConversionFactor(from, to).Some? ==> ConversionFactor(from, to).value > 0.0
  {
    var k := 3600.0 * 180.0;
    assert (k / Pi) * (Pi / k) == 1.0;
  }

  /** One entry of `siPrefixDict`. Only `micro` carries an alternative symbol. */
  datatype Prefix = Prefix(symbol: string, symbolAlt: Option<string>, base10: real)

  /**
   * `siPrefixDict`, key spellings (`dici`) and multipliers as they stand: the
   * multiplier is the reciprocal of the prefix's power of ten.
   */
  const SiPrefixes: map<string, Prefix> := map[
    "peta" := Prefix("P", None, 0.000000000000001),
    "tera" := Prefix("T", None, 0.000000000001),
    "giga" := Prefix("G", None, 0.000000001),
    "mega" := Prefix("M", None, 0.000001),
    "kilo" := Prefix("k", None, 0.001),
    "hecto" := Prefix("h", None, 0.01),
    "deca" := Prefix("da", None, 0.1),
    "None" := Prefix("", None, 1.0),
    "dici" := Prefix("d", None, 10.0),
    "centi" := Prefix("c", None, 100.0),
    "milli" := Prefix("m", None, 1000.0),
    "micro" := Prefix("μ", Some("u"), 1000000.0),
    "nano" := Prefix("n", None, 1000000000.0),
    "pico" := Prefix("p", None, 1000000000000.0)
  ]

  /** `get_si_prefix_symbol`: the table symbol, or the `'None'` entry's symbol for an unknown key. */
  function GetSiPrefixSymbol(prefix: string): string
  {
    if prefix in SiPrefixes then SiPrefixes[prefix].symbol else SiPrefixes["None"].symbol
  }

  /** `get_si_prefix_base10`: the table multiplier, or the `'None'` entry's multiplier for an unknown key. */
  function GetSiPrefixBase10(prefix: string): real
  {
    if prefix in SiPrefixes then SiPrefixes[prefix].base10 else SiPrefixes["None"].base10
  }

  /** Unknown prefixes fall back to no symbol and a multiplier of 1. */
  lemma UnknownPrefixFallback(prefix: string)
    requires prefix !in SiPrefixes
    ensures GetSiPrefixSymbol(prefix) == "" && GetSiPrefixBase10(prefix) == 1.0
  {
  }

  /** A known prefix gets its own entry's symbol and multiplier. */
  lemma KnownPrefixLookup(prefix: string)
    requires prefix in SiPrefixes
    ensures GetSiPrefixSymbol(prefix) == SiPrefixes[prefix].symbol
    ensures GetSiPrefixBase10(prefix) == SiPrefixes[prefix].base10
  {
  }

  /**
   * Whatever the key, the symbol is `μ` for `micro`, the alternate `u` is never
   * returned, and the multiplier is positive.
   */
  lemma PrefixLookupsTotal(prefix: string)
    ensures GetSiPrefixSymbol("micro") == "μ"
    ensures GetSiPrefixSymbol(prefix) != "u"
    ensures GetSiPrefixBase10(prefix) > 0.0
  {
    if prefix in SiPrefixes {
      assert prefix in {"peta", "tera", "giga", "mega", "kilo", "hecto", "deca", "None",
                        "dici", "centi", "milli", "micro", "nano", "pico"};
    }
  }

  /**
   * `get_pret_dir_name` as written: the loop test `dir[-1] != '/' or len(dir) != 0`
   * holds for every non-empty string, so the loop strips the whole string and the
   * next test indexes the empty string. The call never returns normally.
   */
  method GetPretDirNameAsWritten(dir: string) returns (r: Result<string>)
    ensures r == Err(IndexError)
  {
    var d := dir;
    while true
      decreases |d|
    {
      if |d| == 0 {
        return Err(IndexError);
      }
      if !(d[|d| - 1] != '/' || |d| != 0) {
        assert false;  // the loop would end here, but `len(dir) != 0` holds
      }
      d := d[..|d| - 1];
    }
  }

  /**
   * The strip loop of `get_pret_dir_name` as evidently intended
   * (`len(dir) != 0 and dir[-1] != '/'`): the longest prefix of `dir` that is
   * empty or ends with a slash.
   */
  method GetPretDirName(dir: string) returns (head: string)
    ensures head <= dir
    ensures head == [] || head[|head| - 1] == '/'
    ensures forall k :: |head| <= k < |dir| ==> dir[k] != '/'
  {
    var d := dir;
    while |d| != 0 && d[|d| - 1] != '/'
      invariant d <= dir
      invariant forall k :: |d| <= k < |dir| ==> dir[k] != '/'
    {
      d := d[..|d| - 1];
    }
    head := d;
  }
}
