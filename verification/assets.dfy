/** The asset tables offered per instrument, their case-insensitive lookup and
    the instrument options shown in the strategy forms. */
module Assets {
  import opened Text
  import opened Schema

  /** An `AssetOption`; `caption` is its `label` (a reserved word here). */
  datatype AssetOption = AssetOption(value: string, caption: string)

  /** Every option of the tables shows its own value as its label. */
  function Opt(v: string): (o: AssetOption)
    ensures o.value == v && o.caption == v
  {
    AssetOption(v, v)
  }

  /** The forex pairs, BASE/QUOTE. */
  const ForexPairNames: seq<string> := [
    "EUR/USD", "EUR/AUD", "EUR/GBP", "EUR/JPY", "EUR/CHF", "EUR/NZD", "USD/CAD", "USD/CHF",
    "USD/JPY", "CAD/JPY", "CAD/CHF", "CHF/JPY", "GBP/JPY", "GBP/CHF", "GBP/AUD", "GBP/NZD",
    "GBP/USD", "GBP/CAD", "AUD/CAD", "AUD/CHF", "AUD/JPY", "AUD/NZD", "AUD/USD", "NZD/JPY",
    "NZD/USD", "NZD/CAD", "NZD/CHF", "XAU/USD", "XAG/USD"]

  /** One option per value, each labelled with its value. */
  function Options(values: seq<string>): (r: seq<AssetOption>)
    ensures |r| == |values|
    ensures forall k :: 0 <= k < |r| ==> r[k].value == values[k] && r[k].caption == values[k]
  {
    seq(|values|, k requires 0 <= k < |values| => Opt(values[k]))
  }

  const ForexPairs: seq<AssetOption> := Options(ForexPairNames)

  const CryptoAssets: seq<AssetOption> := Options(["BTC"])

  const StockAssets: seq<AssetOption> := Options(["AAPL"])

  /** The `assetsByInstrument` record. */
  function AssetsOf(i: Instrument): seq<AssetOption> {
    match i
    case Forex => ForexPairs
    case Crypto => CryptoAssets
    case Stocks => StockAssets
  }

  /** The BASE/QUOTE shape of a forex pair: two three-letter upper-case codes around a slash. */
  predicate IsPair(s: string) {
    && |s| == 7
    && IsAsciiUpper(s[0]) && IsAsciiUpper(s[1]) && IsAsciiUpper(s[2])
    && s[3] == '/'
    && IsAsciiUpper(s[4]) && IsAsciiUpper(s[5]) && IsAsciiUpper(s[6])
  }

  /** The sizes and contents of the three tables, the label of every option, and
      the BASE/QUOTE shape of every forex pair. */
  lemma TablesShape()
    ensures |ForexPairs| == 29
    ensures CryptoAssets == [AssetOption("BTC", "BTC")]
    ensures StockAssets == [AssetOption("AAPL", "AAPL")]
    ensures forall i: Instrument, k :: 0 <= k < |AssetsOf(i)| ==> AssetsOf(i)[k].value == AssetsOf(i)[k].caption
    ensures forall k :: 0 <= k < |ForexPairs| ==> IsPair(ForexPairs[k].value)
  {
    forall k | 0 <= k < |ForexPairNames|
      ensures IsPair(ForexPairNames[k])
    {
    }
  }

  // ---------------------------------------------------------------- lookup

  /** `getAssetsByInstrument` with the intended meaning: the table of the
      instrument whose name is the argument lower-cased, and nothing for any other text. */
  function AssetsByName(name: string): (r: seq<AssetOption>)
    ensures ParseInstrument(Lower(name)).Some? ==> r == AssetsOf(ParseInstrument(Lower(name)).value)
    ensures ParseInstrument(Lower(name)).None? ==> r == []
  {
    match ParseInstrument(Lower(name))
    case Some(i) => AssetsOf(i)
    case None => []
  }

  lemma LowerIdempotent(s: string)
    ensures Lower(Lower(s)) == Lower(s)
  {
  }

  /** The lookup ignores case: two names that agree once lower-cased give the same table. */
  lemma AssetsByNameIgnoresCase(a: string, b: string)
    requires Lower(a) == Lower(b)
    ensures AssetsByName(a) == AssetsByName(b)
  {
  }

  /** Each instrument's own name, and its upper-cased form, finds its table. */
  lemma AssetsByNameFindsEveryInstrument(i: Instrument)
    ensures AssetsByName(InstrumentName(i)) == AssetsOf(i)
    ensures AssetsByName(Upper(InstrumentName(i))) == AssetsOf(i)
  {
    var n := InstrumentName(i);
    assert Lower(n) == n;
    assert Lower(Upper(n)) == n;
  }

  /** What the bracket lookup on a plain object literal yields at run time:
      an own property (a table), an inherited member of `Object.prototype`
      (truthy, so `|| []` lets it through), or `undefined`. */
  datatype Lookup = Table(options: seq<AssetOption>) | PrototypeMember(name: string)

  /** The all-lower-case names an object literal inherits from `Object.prototype`;
      a lower-cased argument can only ever hit these two. */
  predicate IsInheritedName(s: string) {
    s == "constructor" || s == "__proto__"
  }

  /** `getAssetsByInstrument` as written: the bracket lookup on the record, then `|| []`. */
  function AssetsByNameAsWritten(name: string): (r: Lookup)
    ensures IsInheritedName(Lower(name)) <==> r.PrototypeMember?
    ensures r.Table? ==> r.options == AssetsByName(name)
  {
    var key := Lower(name);
    if IsInheritedName(key) then PrototypeMember(key)
    else Table(AssetsByName(name))
  }

  /** "Constructor" reaches `Object.prototype.constructor`, which is not a list of options. */
  lemma AsWrittenLeaksPrototype()
    ensures AssetsByNameAsWritten("Constructor").PrototypeMember?
    ensures AssetsByName("Constructor") == []
  {
    assert Lower("Constructor") == "constructor";
  }

  // ---------------------------------------------------------------- options

  /** A value with its first character upper-cased (`charAt(0).toUpperCase() + slice(1)`). */
  function Capitalize(s: string): (r: string)
    ensures |r| == |s|
    ensures |s| > 0 ==> r[0] == ToUpper(s[0]) && r[1..] == s[1..]
  {
    if |s| == 0 then "" else [ToUpper(s[0])] + s[1..]
  }

  /** `instrumentOptions`: one option per instrument, in declaration order. */
  function InstrumentOptions(): (r: seq<AssetOption>)
    ensures |r| == |Instruments|
    ensures forall k :: 0 <= k < |r| ==> r[k].value == InstrumentName(Instruments[k])
  {
    seq(|Instruments|, k requires 0 <= k < |Instruments| =>
      AssetOption(InstrumentName(Instruments[k]), Capitalize(InstrumentName(Instruments[k]))))
  }

  /** Lower-casing undoes the capitalisation of a word with no upper-case letter. */
  lemma LowerOfCapitalize(s: string)
    requires forall k :: 0 <= k < |s| ==> !IsAsciiUpper(s[k])
    ensures Lower(Capitalize(s)) == s
  {
    var r := Capitalize(s);
    if |s| > 0 {
      assert Lower(r)[0] == s[0];
      forall k | 1 <= k < |s|
        ensures Lower(r)[k] == s[k]
      {
        assert r[k] == r[1..][k - 1] == s[1..][k - 1];
      }
    }
  }

  /** Every option's label reads back as its value once lower-cased, so feeding a
      label to the lookup finds that instrument's table. */
  lemma InstrumentOptionLabels()
    ensures forall k :: 0 <= k < |InstrumentOptions()| ==>
              InstrumentOptions()[k].caption == Capitalize(InstrumentOptions()[k].value)
              && Lower(InstrumentOptions()[k].caption) == InstrumentOptions()[k].value
              && AssetsByName(InstrumentOptions()[k].caption) == AssetsOf(Instruments[k])
  {
    var r := InstrumentOptions();
    forall k | 0 <= k < |r|
      ensures r[k].caption == Capitalize(r[k].value)
      ensures Lower(r[k].caption) == r[k].value
      ensures AssetsByName(r[k].caption) == AssetsOf(Instruments[k])
    {
      var n := InstrumentName(Instruments[k]);
      assert r[k].caption == Capitalize(n);
      LowerOfCapitalize(n);
    }
  }
}
