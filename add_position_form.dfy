/** The form that adds a lot (src/components/AddPositionForm.tsx): the field rules, the
    per-share preview, and the normalised record handed to the hook's `addPosition`.

    The number inputs are optional numbers (None while empty); the date input is its text,
    "" while empty. */
module AddPositionForm {
  import opened Wrappers
  import opened PortfolioTypes
  import Storage = PortfolioStorage
  import Hook = UsePortfolio

  datatype FormData = FormData(
    ticker: string,
    shares: Option<real>,
    totalPurchasePrice: Option<real>,
    purchaseDate: string)

  // ---------------------------------------------------------------------------
  // Characters
  // ---------------------------------------------------------------------------

  predicate IsAsciiLetter(c: char) {
    ('A' <= c <= 'Z') || ('a' <= c <= 'z')
  }

  /** The white space and line terminators that `String.prototype.trim` removes. */
  predicate IsJsWhitespace(c: char) {
    var n := c as int;
    n == 0x09 || n == 0x0A || n == 0x0B || n == 0x0C || n == 0x0D || n == 0x20 ||
    n == 0xA0 || n == 0x1680 || (0x2000 <= n <= 0x200A) || n == 0x2028 || n == 0x2029 ||
    n == 0x202F || n == 0x205F || n == 0x3000 || n == 0xFEFF
  }

  /** `toUpperCase` on one character, for the ASCII letters. */
  function UpperChar(c: char): (u: char)
    ensures 'a' <= c <= 'z' ==> 'A' <= u <= 'Z' && u as int == c as int - 32
    ensures !('a' <= c <= 'z') ==> u == c
  {
    if 'a' <= c <= 'z' then (c as int - 32) as char else c
  }

  function ToUpper(s: string): (r: string)
    ensures |r| == |s| && forall i | 0 <= i < |s| :: r[i] == UpperChar(s[i])
  {
    seq(|s|, i requires 0 <= i < |s| => UpperChar(s[i]))
  }

  /** Drops the leading white space: the result is a suffix of `s` that is empty or starts
      with a character that is not white space, and everything dropped is white space. */
  function TrimStart(s: string): (r: string)
    ensures |r| <= |s| && r == s[|s| - |r|..]
    ensures r == [] || !IsJsWhitespace(r[0])
    ensures forall i | 0 <= i < |s| - |r| :: IsJsWhitespace(s[i])
  {
    if s == [] || !IsJsWhitespace(s[0]) then s else TrimStart(s[1..])
  }

  /** Drops the trailing white space, symmetrically. */
  function TrimEnd(s: string): (r: string)
    ensures |r| <= |s| && r == s[..|r|]
    ensures r == [] || !IsJsWhitespace(r[|r| - 1])
    ensures forall i | |r| <= i < |s| :: IsJsWhitespace(s[i])
  {
    if s == [] || !IsJsWhitespace(s[|s| - 1]) then s else TrimEnd(s[..|s| - 1])
  }

  function Trim(s: string): string {
    TrimEnd(TrimStart(s))
  }

  /** Line 36: upper-cased, then trimmed. */
  function Normalise(s: string): string {
    Trim(ToUpper(s))
  }

  // ---------------------------------------------------------------------------
  // The form
  // ---------------------------------------------------------------------------

  /** Lines 80-86: required and matching `^[A-Za-z]+$`. */
  predicate ValidTicker(s: string) {
    |s| > 0 && forall i | 0 <= i < |s| :: IsAsciiLetter(s[i])
  }

  /** Every field rule: the ticker rule, at least 0.001 shares, a total of at least 0.01,
      and a purchase date. */
  predicate ValidForm(f: FormData) {
    && ValidTicker(f.ticker)
    && f.shares.Some? && f.shares.value >= 0.001
    && f.totalPurchasePrice.Some? && f.totalPurchasePrice.value >= 0.01
    && f.purchaseDate != ""
  }

  /** Line 32: total / shares while both inputs are set and nonzero, else 0. */
  function PricePerSharePreview(shares: Option<real>, total: Option<real>): (r: real)
    ensures Truthy(shares) && Truthy(total) ==> r * shares.value == total.value
    ensures !(Truthy(shares) && Truthy(total)) ==> r == 0.0
  {
    if Truthy(shares) && Truthy(total) then total.value / shares.value else 0.0
  }

  /** onSubmit (reached only once the fields are valid): the normalised ticker and the three
      other fields unchanged; nothing else is set. */
  function Submit(f: FormData): (data: Hook.PositionData)
    requires ValidForm(f)
    ensures data.ticker == Normalise(f.ticker)
    ensures data.shares == f.shares.value && data.totalPurchasePrice == f.totalPurchasePrice.value
    ensures data.purchaseDate == f.purchaseDate
    ensures data.companyName.None? && data.currentPrice.None? && data.currentValue.None?
    ensures data.unrealizedGainLoss.None? && data.unrealizedGainLossPercentage.None?
    ensures data.lastUpdated.None?
  {
    Hook.PositionData(
      ticker := Normalise(f.ticker),
      companyName := None,
      shares := f.shares.value,
      totalPurchasePrice := f.totalPurchasePrice.value,
      purchaseDate := f.purchaseDate,
      currentPrice := None,
      currentValue := None,
      unrealizedGainLoss := None,
      unrealizedGainLossPercentage := None,
      lastUpdated := None)
  }

  // ---------------------------------------------------------------------------
  // What the form promises
  // ---------------------------------------------------------------------------

  /** Upper-casing maps ASCII letters to the capitals A-Z and leaves everything else, white
      space included, alone; a second upper-casing changes nothing. */
  lemma UpperCharFacts(c: char)
    ensures IsAsciiLetter(c) ==> 'A' <= UpperChar(c) <= 'Z'
    ensures IsJsWhitespace(UpperChar(c)) <==> IsJsWhitespace(c)
    ensures UpperChar(UpperChar(c)) == UpperChar(c)
  {
  }

  /** A string without white space is its own trim. */
  lemma TrimWithoutWhitespace(u: string)
    requires forall i | 0 <= i < |u| :: !IsJsWhitespace(u[i])
    ensures Trim(u) == u
  {
    assert TrimStart(u) == u;
    assert TrimEnd(u) == u;
  }

  /** An ASCII letter upper-cases to a capital, which is not white space. */
  lemma LetterUpperCapital(c: char)
    requires IsAsciiLetter(c)
    ensures 'A' <= UpperChar(c) <= 'Z' && !IsJsWhitespace(UpperChar(c))
  {
  }

  /** The upper-casing of a string of ASCII letters holds capitals only. */
  lemma LettersUpperCapitals(s: string)
    requires forall i | 0 <= i < |s| :: IsAsciiLetter(s[i])
    ensures forall i | 0 <= i < |s| :: 'A' <= ToUpper(s)[i] <= 'Z' && !IsJsWhitespace(ToUpper(s)[i])
  {
    forall i | 0 <= i < |s|
      ensures 'A' <= ToUpper(s)[i] <= 'Z' && !IsJsWhitespace(ToUpper(s)[i])
    {
      LetterUpperCapital(s[i]);
    }
  }

  /** An accepted ticker has no white space, so the trim never fires: its normal form is
      its upper-casing (capitals A-Z only, by LettersUpperCapitals). */
  lemma ValidTickerNormalises(s: string)
    requires ValidTicker(s)
    ensures Normalise(s) == ToUpper(s)
  {
    LettersUpperCapitals(s);
    TrimWithoutWhitespace(ToUpper(s));
  }

  /** Upper-casing leaves every character of `s` alone. */
  predicate AllUpper(s: string) {
    forall i | 0 <= i < |s| :: UpperChar(s[i]) == s[i]
  }

  lemma UpperCased(s: string)
    ensures AllUpper(ToUpper(s))
  {
    forall i | 0 <= i < |s|
      ensures UpperChar(ToUpper(s)[i]) == ToUpper(s)[i]
    {
      UpperCharFacts(s[i]);
    }
  }

  lemma AllUpperSlice(s: string, lo: int, hi: int)
    requires AllUpper(s) && 0 <= lo <= hi <= |s|
    ensures AllUpper(s[lo..hi])
  {
    forall i | 0 <= i < hi - lo
      ensures UpperChar(s[lo..hi][i]) == s[lo..hi][i]
    {
      assert s[lo..hi][i] == s[lo + i];
    }
  }

  /** A string whose characters upper-casing leaves alone is its own upper-casing. */
  lemma ToUpperFixed(s: string)
    requires AllUpper(s)
    ensures ToUpper(s) == s
  {
  }

  /** Trimming twice is trimming once. */
  lemma TrimIdempotent(s: string)
    ensures Trim(Trim(s)) == Trim(s)
  {
    var a := TrimStart(s);
    var t := TrimEnd(a);
    if t != [] {
      assert t[0] == a[0];
    }
    assert TrimStart(t) == t;
  }

  /** Normalising a normalised ticker returns it unchanged. */
  lemma NormaliseIdempotent(s: string)
    ensures Normalise(Normalise(s)) == Normalise(s)
  {
    var u := ToUpper(s);
    UpperCased(s);
    var a := TrimStart(u);
    AllUpperSlice(u, |u| - |a|, |u|);
    var t := TrimEnd(a);
    AllUpperSlice(a, 0, |t|);
    ToUpperFixed(t);
    TrimIdempotent(u);
  }

  /** `a / b > 0` for positive a and b. */
  lemma PositiveQuotient(a: real, b: real)
    requires a > 0.0 && b > 0.0
    ensures a / b > 0.0
  {
  }

  /** A valid form yields a lot with a positive per-share cost equal to the preview, that
      keeps the ledger invariant and that storage reloads unchanged. */
  lemma ValidFormBuildsSoundLot(f: FormData, id: string)
    requires ValidForm(f)
    ensures Hook.NewLot(Submit(f), id).purchasePricePerShare > 0.0
    ensures Hook.NewLot(Submit(f), id).purchasePricePerShare == PricePerSharePreview(f.shares, f.totalPurchasePrice)
    ensures Storage.LotInvariant(Hook.NewLot(Submit(f), id))
    ensures Storage.Canonical(Hook.NewLot(Submit(f), id))
  {
    var data := Submit(f);
    var p := Hook.NewLot(data, id);
    assert p.purchasePricePerShare == data.totalPurchasePrice / data.shares;
    PositiveQuotient(data.totalPurchasePrice, data.shares);
    Hook.NewLotInvariant(data, id);
  }
}
