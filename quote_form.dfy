/** The quotation form page: decimal parsing of the dimension fields, the
    selection of work items and their draft texts, the maxima and quantity
    buckets sent to the quotation route, and the calendar's month navigation. */
module QuoteForm {
  import opened Text
  import Charts
  import Quotation

  // ------------------------------------------------------------- parseDec

  /** A character `[^\d.\-]` does not strip. */
  predicate NumChar(c: char) {
    IsDigit(c) || c == '.' || c == '-'
  }

  /** `.replace(/[^\d.\-]/g, "")`: the digits, dots and minus signs of `s`, in order. */
  function Strip(s: string): (r: string)
    ensures |r| <= |s|
    ensures forall i :: 0 <= i < |r| ==> NumChar(r[i])
    decreases |s|
  {
    if s == "" then ""
    else if NumChar(s[0]) then [s[0]] + Strip(s[1..])
    else Strip(s[1..])
  }

  /** Stripping distributes over concatenation. */
  lemma {:induction false} StripAppend(s: string, t: string)
    ensures Strip(s + t) == Strip(s) + Strip(t)
    decreases |s|
  {
    if s == "" {
      assert s + t == t;
    } else {
      assert (s + t)[0] == s[0];
      assert (s + t)[1..] == s[1..] + t;
      StripAppend(s[1..], t);
    }
  }

  /** Text made of the kept characters strips to itself, and text without
      any strips to nothing. */
  lemma {:induction false} StripKept(s: string)
    ensures (forall i :: 0 <= i < |s| ==> NumChar(s[i])) ==> Strip(s) == s
    ensures (forall i :: 0 <= i < |s| ==> !NumChar(s[i])) ==> Strip(s) == ""
    decreases |s|
  {
    if s != "" {
      StripKept(s[1..]);
      assert s == [s[0]] + s[1..];
    }
  }

  /** `10^n` as a real. */
  function Pow10(n: nat): (p: real)
    ensures p >= 1.0
  {
    if n == 0 then 1.0 else 10.0 * Pow10(n - 1)
  }

  /** The value of the digits written after a decimal point. */
  function Fraction(b: string): real
    requires AllDigits(b)
  {
    DigitsValue(b) as real / Pow10(|b|)
  }

  /** `Number(s)` on text made of digits, dots and minus signs: the empty
      text is 0; otherwise an optional minus sign and a decimal numeral with
      at least one digit, or nothing (`NaN`). */
  function NumberOf(s: string): (r: Option<real>)
    ensures s == "" ==> r == Some(0.0)
  {
    if s == "" then Some(0.0)
    else
      var negative := s[0] == '-';
      var body := if negative then s[1..] else s;
      match Numeral(body)
      case None => None
      case Some(x) => Some(if negative then -x else x)
  }

  /** An unsigned decimal numeral: digits, optionally a point and more digits,
      with at least one digit in all. */
  function Numeral(body: string): (r: Option<real>)
  {
    var i := IndexOf(body, '.');
    var a := body[..i];
    var b := if i < |body| then body[i + 1..] else "";
    if AllDigits(a) && AllDigits(b) && a + b != "" then Some(DigitsValue(a) as real + Fraction(b))
    else None
  }

  /** The text `Number` reads: the first comma made a decimal point, then
      everything but digits, dots and minus signs dropped. */
  function Cleaned(trimmed: string): string {
    Strip(ReplaceFirst(trimmed, ',', '.'))
  }

  /** `parseDec`: a blank text, "," or "." is 0; otherwise the cleaned text's
      number, or 0 when it is not one (never `NaN`). */
  function ParseDec(v: string): (n: real)
    ensures var t := Trim(v); t == "" || t == "," || t == "." ==> n == 0.0
  {
    var t := Trim(v);
    if t == "" || t == "," || t == "." then 0.0
    else
      match NumberOf(Cleaned(t))
      case None => 0.0
      case Some(x) => x
  }

  /** The first `c` of `a + rest` is in `rest` when `a` has none. */
  lemma {:induction false} IndexOfPast(a: string, rest: string, c: char)
    requires c !in a
    ensures IndexOf(a + rest, c) == |a| + IndexOf(rest, c)
    decreases |a|
  {
    if a == "" {
      assert a + rest == rest;
    } else {
      assert (a + rest)[0] == a[0];
      assert (a + rest)[1..] == a[1..] + rest;
      IndexOfPast(a[1..], rest, c);
    }
  }

  /** The first `c` of `a + [c] + rest` is the one after `a` when `a` has none. */
  lemma {:induction false} IndexOfAfter(a: string, c: char, rest: string)
    requires c !in a
    ensures IndexOf(a + [c] + rest, c) == |a|
  {
    assert a + [c] + rest == a + ([c] + rest);
    IndexOfPast(a, [c] + rest, c);
    assert ([c] + rest)[0] == c;
  }

  /** A text `parseDec` hands to `Number`: already trimmed, and neither
      blank nor a lone "," or ".". */
  predicate Plain(s: string) {
    s != "" && !IsSpace(s[0]) && !IsSpace(s[|s| - 1]) && s != "," && s != "."
  }

  /** Cleaned text `Number` reads without a sign. */
  predicate Unsigned(p: string) {
    p != "" && p[0] != '-'
  }

  /** A plain text whose cleaning is an unsigned numeral of value `x` reads as `x`. */
  lemma {:induction false} ParseDecReads(s: string, p: string, x: real)
    requires Plain(s) && Cleaned(s) == p && Unsigned(p) && Numeral(p) == Some(x)
    ensures ParseDec(s) == x
  {
    TrimOfTrimmed(s);
  }

  /** A plain text whose cleaning `Number` cannot read is 0. */
  lemma {:induction false} ParseDecRejects(s: string, p: string)
    requires Plain(s) && Cleaned(s) == p && Unsigned(p) && Numeral(p) == None
    ensures ParseDec(s) == 0.0
  {
    TrimOfTrimmed(s);
  }

  /** A numeral with a decimal point reads as its whole part plus its fraction. */
  lemma {:induction false} NumeralWithPoint(a: string, b: string)
    requires AllDigits(a) && AllDigits(b) && |a| + |b| > 0
    ensures Numeral(a + "." + b) == Some(DigitsValue(a) as real + Fraction(b))
  {
    var s := a + "." + b;
    IndexOfAfter(a, '.', b);
    assert s[..|a|] == a;
    assert s[|a| + 1..] == b;
  }

  /** A numeral without a point reads as its digits. */
  lemma {:induction false} NumeralWhole(a: string)
    requires AllDigits(a) && a != ""
    ensures Numeral(a) == Some(DigitsValue(a) as real)
  {
    assert '.' !in a;
    assert a[..|a|] == a;
    assert a + "" == a;
  }

  /** Replacing the first comma of `a,rest` when `a` has none. */
  lemma {:induction false} FirstCommaToPoint(a: string, rest: string)
    requires ',' !in a
    ensures ReplaceFirst(a + "," + rest, ',', '.') == a + "." + rest
  {
    var s := a + "," + rest;
    IndexOfAfter(a, ',', rest);
    assert s[..|a|] == a;
    assert s[|a| + 1..] == rest;
  }

  /** Text without a comma and made of kept characters is its own cleaning. */
  lemma {:induction false} CleanedKept(s: string)
    requires forall i :: 0 <= i < |s| ==> NumChar(s[i])
    ensures Cleaned(s) == s
  {
    assert ',' !in s;
    ReplaceFirstSpec(s, ',', '.');
    StripKept(s);
  }

  /** Cleaning `a` + separator + `b` for digit runs `a` and `b` gives `a.b`. */
  lemma {:induction false} CleanedDecimal(a: string, sep: char, b: string)
    requires AllDigits(a) && AllDigits(b)
    requires sep == ',' || sep == '.'
    ensures Cleaned(a + [sep] + b) == a + "." + b
  {
    var p := a + "." + b;
    assert forall i :: 0 <= i < |p| ==> NumChar(p[i]);
    if sep == ',' {
      assert ',' !in a;
      FirstCommaToPoint(a, b);
      StripKept(p);
    } else {
      CleanedKept(p);
    }
  }

  /** The characters a decimal text is made of are not white space. */
  lemma {:induction false} NumberCharNotSpace(c: char)
    requires NumChar(c) || c == ','
    ensures !IsSpace(c)
  {
  }

  /** The first and the last character of `a + [sep] + b`. */
  lemma {:induction false} SeparatedEnds(a: string, sep: char, b: string)
    ensures (a + [sep] + b)[0] == if a == "" then sep else a[0]
    ensures (a + [sep] + b)[|a| + |b|] == if b == "" then sep else b[|b| - 1]
  {
  }

  /** `a` + separator + `b` is plain when its ends are characters of a number. */
  lemma {:induction false} SeparatedPlain(a: string, sep: char, b: string)
    requires a == "" || NumChar(a[0])
    requires b == "" || NumChar(b[|b| - 1]) || b[|b| - 1] == ','
    requires |a| + |b| > 0
    requires NumChar(sep) || sep == ','
    ensures Plain(a + [sep] + b)
  {
    SeparatedEnds(a, sep, b);
    var first := if a == "" then sep else a[0];
    var last := if b == "" then sep else b[|b| - 1];
    NumberCharNotSpace(first);
    NumberCharNotSpace(last);
  }

  /** `a` + separator + `b` has no sign when `a` is a digit run. */
  lemma {:induction false} SeparatedUnsigned(a: string, sep: char, b: string)
    requires AllDigits(a) && sep != '-'
    ensures Unsigned(a + [sep] + b)
  {
    SeparatedEnds(a, sep, b);
  }

  /** `parseDec` reads a decimal comma or a decimal point alike: "12,5" and
      "12.5" are both 12.5, ",5" is 0.5 and "5," is 5. */
  lemma {:induction false} ParseDecDecimal(a: string, sep: char, b: string)
    requires AllDigits(a) && AllDigits(b) && |a| + |b| > 0
    requires sep == ',' || sep == '.'
    ensures ParseDec(a + [sep] + b) == DigitsValue(a) as real + Fraction(b)
  {
    CleanedDecimal(a, sep, b);
    NumeralWithPoint(a, b);
    SeparatedUnsigned(a, '.', b);
    SeparatedPlain(a, sep, b);
    ParseDecReads(a + [sep] + b, a + "." + b, DigitsValue(a) as real + Fraction(b));
  }

  /** A nonempty digit run is plain and unsigned. */
  lemma {:induction false} DigitsPlain(a: string)
    requires AllDigits(a) && a != ""
    ensures Plain(a) && Unsigned(a)
  {
    NumberCharNotSpace(a[0]);
    NumberCharNotSpace(a[|a| - 1]);
  }

  /** `parseDec` reads a whole number as itself. */
  lemma {:induction false} ParseDecWhole(a: string)
    requires AllDigits(a) && a != ""
    ensures ParseDec(a) == DigitsValue(a) as real
  {
    CleanedKept(a);
    NumeralWhole(a);
    DigitsPlain(a);
    ParseDecReads(a, a, DigitsValue(a) as real);
  }

  /** A suffix with no kept character and no comma vanishes under cleaning. */
  lemma {:induction false} CleanedUnits(a: string, u: string)
    requires AllDigits(a)
    requires forall i :: 0 <= i < |u| ==> !NumChar(u[i]) && u[i] != ','
    ensures Cleaned(a + u) == a
  {
    var s := a + u;
    assert ',' !in s;
    ReplaceFirstSpec(s, ',', '.');
    StripAppend(a, u);
    StripKept(a);
    StripKept(u);
  }

  /** A digit run followed by a unit that does not end in white space is plain. */
  lemma {:induction false} UnitsPlain(a: string, u: string)
    requires AllDigits(a) && a != ""
    requires u == "" || !IsSpace(u[|u| - 1])
    ensures Plain(a + u)
  {
    var s := a + u;
    assert s[0] == a[0];
    NumberCharNotSpace(a[0]);
    if u == "" {
      assert s == a;
      NumberCharNotSpace(a[|a| - 1]);
    } else {
      assert s[|s| - 1] == u[|u| - 1];
    }
    assert s != "," && s != "." by {
      assert IsDigit(s[0]);
    }
  }

  /** Trailing text with no digit, dot, comma or minus sign, such as a unit,
      is ignored: "12 kg" is 12. */
  lemma {:induction false} ParseDecIgnoresUnits(a: string, u: string)
    requires AllDigits(a) && a != ""
    requires forall i :: 0 <= i < |u| ==> !NumChar(u[i]) && u[i] != ','
    requires u == "" || !IsSpace(u[|u| - 1])
    ensures ParseDec(a + u) == DigitsValue(a) as real
  {
    CleanedUnits(a, u);
    NumeralWhole(a);
    DigitsPlain(a);
    UnitsPlain(a, u);
    ParseDecReads(a + u, a, DigitsValue(a) as real);
  }

  /** A comma alone strips to nothing. */
  lemma {:induction false} StripComma()
    ensures Strip(",") == ""
  {
    assert ","[1..] == "";
  }

  /** Stripping `b,c` for digit runs `b` and `c` drops the comma. */
  lemma {:induction false} StripDropsComma(b: string, c: string)
    requires AllDigits(b) && AllDigits(c)
    ensures Strip(b + "," + c) == b + c
  {
    StripAppend(b + ",", c);
    StripAppend(b, ",");
    StripComma();
    StripKept(b);
    StripKept(c);
    assert b + "" == b;
  }

  /** Cleaning `a,b,c` turns the first comma into a point and drops the second. */
  lemma {:induction false} CleanedLaterComma(a: string, b: string, c: string)
    requires AllDigits(a) && AllDigits(b) && AllDigits(c)
    ensures Cleaned(a + "," + (b + "," + c)) == a + "." + (b + c)
  {
    assert ',' !in a;
    FirstCommaToPoint(a, b + "," + c);
    StripAppend(a + ".", b + "," + c);
    assert forall i :: 0 <= i < |a + "."| ==> NumChar((a + ".")[i]);
    StripKept(a + ".");
    StripDropsComma(b, c);
  }

  /** Two digit runs side by side are one. */
  lemma {:induction false} DigitsAppend(b: string, c: string)
    requires AllDigits(b) && AllDigits(c)
    ensures AllDigits(b + c)
  {
  }

  /** `a,b,c` for digit runs is plain and cleans to the unsigned `a.bc`. */
  lemma {:induction false} LaterCommaShape(a: string, b: string, c: string)
    requires AllDigits(a) && AllDigits(b) && AllDigits(c) && |a| + |b| + |c| > 0
    ensures AllDigits(b + c)
    ensures Plain(a + "," + (b + "," + c)) && Unsigned(a + "." + (b + c))
    ensures Cleaned(a + "," + (b + "," + c)) == a + "." + (b + c)
  {
    DigitsAppend(b, c);
    CleanedLaterComma(a, b, c);
    SeparatedUnsigned(a, '.', b + c);
    SeparatedEnds(b, ',', c);
    SeparatedPlain(a, ',', b + "," + c);
  }

  /** Two plain texts with the same cleaning read the same. */
  lemma {:induction false} ParseDecSameCleaning(s: string, t: string)
    requires Plain(s) && Plain(t) && Cleaned(s) == Cleaned(t)
    ensures ParseDec(s) == ParseDec(t)
  {
    TrimOfTrimmed(s);
    TrimOfTrimmed(t);
  }

  /** Only the first comma is a decimal point; a later one is dropped, so
      "1,2,5" reads as "1,25", that is 1.25. */
  lemma {:induction false} ParseDecLaterCommas(a: string, b: string, c: string)
    requires AllDigits(a) && AllDigits(b) && AllDigits(c) && |a| + |b| + |c| > 0
    ensures ParseDec(a + "," + (b + "," + c)) == ParseDec(a + "," + (b + c))
  {
    LaterCommaShape(a, b, c);
    CleanedDecimal(a, ',', b + c);
    SeparatedPlain(a, ',', b + c);
    ParseDecSameCleaning(a + "," + (b + "," + c), a + "," + (b + c));
  }

  /** A lone minus sign is not a number and reads as 0. */
  lemma {:induction false} ParseDecMinusAlone()
    ensures ParseDec("-") == 0.0
  {
    CleanedKept("-");
    assert Numeral("") == None;
    TrimOfTrimmed("-");
  }

  /** A numeral with two decimal points is not one. */
  lemma {:induction false} NumeralTwoPoints(a: string, b: string, c: string)
    requires AllDigits(a) && AllDigits(b) && AllDigits(c)
    ensures Numeral(a + "." + (b + "." + c)) == None
  {
    var s := a + "." + (b + "." + c);
    IndexOfAfter(a, '.', b + "." + c);
    assert s[|a| + 1..] == b + "." + c;
    assert (b + "." + c)[|b|] == '.';
  }

  /** Two decimal points make the text unreadable, so it reads as 0. */
  lemma {:induction false} ParseDecTwoPoints(a: string, b: string, c: string)
    requires AllDigits(a) && AllDigits(b) && AllDigits(c)
    ensures ParseDec(a + "." + (b + "." + c)) == 0.0
  {
    var r := b + "." + c;
    var s := a + "." + r;
    assert forall i :: 0 <= i < |s| ==> NumChar(s[i]);
    CleanedKept(s);
    NumeralTwoPoints(a, b, c);
    SeparatedUnsigned(a, '.', r);
    SeparatedEnds(b, '.', c);
    SeparatedPlain(a, '.', r);
    ParseDecRejects(s, s);
  }

  // ------------------------------------------------------------- work items

  /** The work items the form offers (industrial and residential, then civil;
      "vigas" appears in both lists but is one key). */
  datatype PartKey =
    | Pilares | Vigas | PlacaAlveolar | Cimentacion | Paneles | PanelesArquitectonicos
    | Pila | PlacaPretensada | PlacaCelosia | Cerramiento | Cubierta | ObraSingular

  /** The fields of an item's dimensions. */
  datatype Field = Qty | Largo | Ancho | Alto | Peso | Radio | Plataformas

  datatype Dims = Dims(qty: real, largo: real, ancho: real, alto: real,
                       peso: real, radio: real, plataformas: bool)

  /** `emptyDims()`: every measure 0 and no platforms. */
  const EmptyDims: Dims := Dims(0.0, 0.0, 0.0, 0.0, 0.0, 0.0, false)

  datatype Partida = Partida(key: PartKey, nombre: string, dims: Dims)

  /** The form's item state: the selected keys in selection order, each
      selected item's record, and the text typed so far in its fields. */
  datatype Selection = Selection(
    seleccion: seq<PartKey>,
    partidas: map<PartKey, Partida>,
    draft: map<PartKey, map<Field, string>>)

  predicate NoDuplicates(s: seq<PartKey>) {
    forall i, j :: 0 <= i < j < |s| ==> s[i] != s[j]
  }

  /** What the handlers keep true: every key is selected at most once, and
      exactly the selected keys have a record, filed under their own key,
      and a draft. */
  predicate Consistent(st: Selection) {
    NoDuplicates(st.seleccion)
    && (forall k :: k in st.seleccion <==> k in st.partidas)
    && (forall k :: k in st.seleccion <==> k in st.draft)
    && (forall k :: k in st.partidas ==> st.partidas[k].key == k)
  }

  /** `prev.filter((k) => k !== key)`. */
  function Without(s: seq<PartKey>, key: PartKey): (r: seq<PartKey>)
    ensures |r| <= |s|
    ensures forall k :: k in r <==> k in s && k != key
    decreases |s|
  {
    if s == [] then []
    else
      var rest := Without(s[1..], key);
      assert forall k :: k in s <==> k == s[0] || k in s[1..];
      if s[0] == key then rest else [s[0]] + rest
  }

  /** Filtering out a key that is not there changes nothing. */
  lemma {:induction false} WithoutAbsent(s: seq<PartKey>, key: PartKey)
    requires key !in s
    ensures Without(s, key) == s
    decreases |s|
  {
    if s != [] {
      assert key !in s[1..];
      WithoutAbsent(s[1..], key);
      assert [s[0]] + s[1..] == s;
    }
  }

  /** Filtering keeps a list free of duplicates. */
  lemma {:induction false} WithoutNoDuplicates(s: seq<PartKey>, key: PartKey)
    requires NoDuplicates(s)
    ensures NoDuplicates(Without(s, key))
    decreases |s|
  {
    if s != [] {
      assert NoDuplicates(s[1..]) by {
        forall i, j | 0 <= i < j < |s[1..]|
          ensures s[1..][i] != s[1..][j]
        {
          assert s[1..][i] == s[i + 1] && s[1..][j] == s[j + 1];
        }
      }
      WithoutNoDuplicates(s[1..], key);
      var rest := Without(s[1..], key);
      if s[0] != key {
        assert s[0] !in s[1..] by {
          forall j | 0 <= j < |s[1..]|
            ensures s[1..][j] != s[0]
          {
            assert s[1..][j] == s[j + 1];
          }
        }
        assert s[0] !in rest;
        NoDuplicatesCons(s[0], rest);
      }
    }
  }

  lemma {:induction false} NoDuplicatesCons(x: PartKey, t: seq<PartKey>)
    requires x !in t && NoDuplicates(t)
    ensures NoDuplicates([x] + t)
  {
    var s := [x] + t;
    forall i, j | 0 <= i < j < |s|
      ensures s[i] != s[j]
    {
      assert s[j] == t[j - 1];
      if i > 0 {
        assert s[i] == t[i - 1];
      }
    }
  }

  lemma {:induction false} NoDuplicatesSnoc(t: seq<PartKey>, x: PartKey)
    requires x !in t && NoDuplicates(t)
    ensures NoDuplicates(t + [x])
  {
    var s := t + [x];
    forall i, j | 0 <= i < j < |s|
      ensures s[i] != s[j]
    {
      assert s[i] == t[i];
      if j < |t| {
        assert s[j] == t[j];
      }
    }
  }

  // ------------------------------------------------------------- togglePartida

  /** `togglePartida(key, nombre)`: a selected key leaves the selection, the
      records and the drafts; an unselected one is appended with empty
      dimensions and an empty draft. */
  function Toggled(st: Selection, key: PartKey, nombre: string): Selection {
    if key in st.seleccion then
      Selection(Without(st.seleccion, key), st.partidas - {key}, st.draft - {key})
    else
      Selection(st.seleccion + [key], st.partidas[key := Partida(key, nombre, EmptyDims)],
                st.draft[key := map[]])
  }

  /** Toggling flips whether the key is selected. */
  lemma {:induction false} ToggleFlips(st: Selection, key: PartKey, nombre: string)
    ensures var t := Toggled(st, key, nombre);
      (key in t.seleccion <==> key !in st.seleccion)
      && (key in t.partidas <==> key !in st.seleccion)
      && (key in t.draft <==> key !in st.seleccion)
  {
  }

  /** Toggling an unselected key appends it with all-zero dimensions, no
      platforms and an empty draft. */
  lemma {:induction false} ToggleAdds(st: Selection, key: PartKey, nombre: string)
    requires key !in st.seleccion
    ensures var t := Toggled(st, key, nombre);
      t.seleccion == st.seleccion + [key]
      && t.partidas[key] == Partida(key, nombre, Dims(0.0, 0.0, 0.0, 0.0, 0.0, 0.0, false))
      && t.draft[key] == map[]
  {
  }

  /** Toggling never touches another key: its place in the selection, its
      record and its draft stay as they were. */
  lemma {:induction false} ToggleKeepsOthers(st: Selection, key: PartKey, nombre: string, k: PartKey)
    requires k != key
    ensures var t := Toggled(st, key, nombre);
      (k in t.seleccion <==> k in st.seleccion)
      && (k in t.partidas <==> k in st.partidas)
      && (k in t.partidas ==> t.partidas[k] == st.partidas[k])
      && (k in t.draft <==> k in st.draft)
      && (k in t.draft ==> t.draft[k] == st.draft[k])
  {
    if key in st.seleccion {
      MapOthers(st.partidas, key, k);
      MapOthers(st.draft, key, k);
    } else {
      assert k in st.seleccion + [key] <==> k in st.seleccion;
    }
  }

  /** Removing one key keeps every other entry. */
  lemma {:induction false} MapOthers<V>(m: map<PartKey, V>, key: PartKey, k: PartKey)
    requires k != key
    ensures k in m - {key} <==> k in m
    ensures k in m ==> (m - {key})[k] == m[k]
  {
  }

  /** Adding an absent key and removing it again restores the map. */
  lemma {:induction false} MapRestore<V>(m: map<PartKey, V>, key: PartKey, v: V)
    requires key !in m
    ensures m[key := v] - {key} == m
  {
    var r := m[key := v] - {key};
    assert r.Keys == m.Keys;
    assert forall k :: k in r ==> r[k] == m[k];
  }

  /** Toggling keeps the state consistent. */
  lemma {:induction false} ToggleKeepsConsistent(st: Selection, key: PartKey, nombre: string)
    requires Consistent(st)
    ensures Consistent(Toggled(st, key, nombre))
  {
    if key in st.seleccion {
      WithoutNoDuplicates(st.seleccion, key);
    } else {
      NoDuplicatesSnoc(st.seleccion, key);
    }
  }

  /** Selecting an item and unselecting it again restores the state. */
  lemma {:induction false} ToggleTwiceRestores(st: Selection, key: PartKey, nombre: string)
    requires Consistent(st) && key !in st.seleccion
    ensures Toggled(Toggled(st, key, nombre), key, nombre) == st
  {
    assert key !in st.partidas && key !in st.draft;
    WithoutSnoc(st.seleccion, key);
    MapRestore(st.partidas, key, Partida(key, nombre, EmptyDims));
    MapRestore(st.draft, key, map[]);
  }

  /** Filtering a key off the end of a list it was not in before. */
  lemma {:induction false} WithoutSnoc(s: seq<PartKey>, key: PartKey)
    requires key !in s
    ensures Without(s + [key], key) == s
    decreases |s|
  {
    if s == [] {
      assert [] + [key] == [key];
      assert [key][1..] == [];
    } else {
      assert (s + [key])[0] == s[0];
      assert (s + [key])[1..] == s[1..] + [key];
      WithoutSnoc(s[1..], key);
      assert [s[0]] + s[1..] == s;
    }
  }

  // ------------------------------------------------------------- setDraftField

  /** The test `/^[0-9.,]*$/`: only digits, points and commas. */
  predicate DraftText(text: string) {
    forall i :: 0 <= i < |text| ==> IsDigit(text[i]) || text[i] == '.' || text[i] == ','
  }

  /** `setDraftField(key, field, text)`: text with any other character is
      ignored; otherwise it becomes the draft of that field, creating the
      item's draft if it has none. */
  function DraftSet(st: Selection, key: PartKey, field: Field, text: string): Selection {
    if !DraftText(text) then st
    else
      var entry := if key in st.draft then st.draft[key] else map[];
      st.(draft := st.draft[key := entry[field := text]])
  }

  /** A text with a character outside digits, "." and "," leaves the form as it was. */
  lemma {:induction false} DraftRejects(st: Selection, key: PartKey, field: Field, text: string, i: nat)
    requires i < |text| && !IsDigit(text[i]) && text[i] != '.' && text[i] != ','
    ensures DraftSet(st, key, field, text) == st
  {
  }

  /** An accepted text is stored in that field only: the item's other fields,
      the other items' drafts, the selection and the records are unchanged. */
  lemma {:induction false} DraftAccepts(st: Selection, key: PartKey, field: Field, text: string)
    requires DraftText(text)
    ensures var t := DraftSet(st, key, field, text);
      key in t.draft && field in t.draft[key] && t.draft[key][field] == text
      && t.seleccion == st.seleccion && t.partidas == st.partidas
      && (forall k :: k in t.draft <==> k in st.draft || k == key)
      && (forall k :: k in st.draft && k != key ==> t.draft[k] == st.draft[k])
      && (forall f :: f != field && key in st.draft && f in st.draft[key] ==>
            f in t.draft[key] && t.draft[key][f] == st.draft[key][f])
  {
  }

  /** Typing into a selected item keeps the state consistent. */
  lemma {:induction false} DraftKeepsConsistent(st: Selection, key: PartKey, field: Field, text: string)
    requires Consistent(st) && key in st.seleccion
    ensures Consistent(DraftSet(st, key, field, text))
  {
  }

  // ------------------------------------------------------------- deriveMaxPesoRadio

  /** The two measures the form sends as maxima. */
  datatype Measure = Weight | Reach

  function MeasureOf(d: Dims, m: Measure): real {
    match m
    case Weight => d.peso
    case Reach => d.radio
  }

  /** The running maximum of `deriveMaxPesoRadio`: from 0, over the selected
      items that have a record, in selection order. */
  function MaxOver(sel: seq<PartKey>, parts: map<PartKey, Partida>, m: Measure): real
    decreases |sel|
  {
    if sel == [] then 0.0
    else
      var best := MaxOver(sel[..|sel| - 1], parts, m);
      var k := sel[|sel| - 1];
      if k in parts && MeasureOf(parts[k].dims, m) > best then MeasureOf(parts[k].dims, m) else best
  }

  /** The maximum is at least 0, at least each selected item's measure, and
      is either 0 or the measure of one of them. */
  lemma {:induction false} MaxOverSpec(sel: seq<PartKey>, parts: map<PartKey, Partida>, m: Measure)
    ensures MaxOver(sel, parts, m) >= 0.0
    ensures forall i :: 0 <= i < |sel| && sel[i] in parts ==>
              MeasureOf(parts[sel[i]].dims, m) <= MaxOver(sel, parts, m)
    ensures MaxOver(sel, parts, m) == 0.0 ||
              exists i :: 0 <= i < |sel| && sel[i] in parts && MeasureOf(parts[sel[i]].dims, m) == MaxOver(sel, parts, m)
    decreases |sel|
  {
    if sel != [] {
      var pre := sel[..|sel| - 1];
      MaxOverSpec(pre, parts, m);
      assert forall i :: 0 <= i < |pre| ==> pre[i] == sel[i];
    }
  }

  /** Items without a record, or nothing selected, give 0. */
  lemma {:induction false} MaxOverNone(sel: seq<PartKey>, parts: map<PartKey, Partida>, m: Measure)
    requires forall i :: 0 <= i < |sel| ==> sel[i] !in parts
    ensures MaxOver(sel, parts, m) == 0.0
    decreases |sel|
  {
    if sel != [] {
      MaxOverNone(sel[..|sel| - 1], parts, m);
    }
  }

  // ------------------------------------------------------------- buildPayload

  /** The four quantity totals the quotation route receives. */
  datatype Bucket = Beams | Facade | HollowSlabs | Columns

  /** The key lists of `buildPayload`: beams and prestressed or lattice
      slabs; panels, architectural panels and cladding; hollow-core slabs and
      roofs; columns, piers and foundations. */
  predicate InBucket(k: PartKey, b: Bucket) {
    match b
    case Beams => k == Vigas || k == PlacaPretensada || k == PlacaCelosia
    case Facade => k == Paneles || k == PanelesArquitectonicos || k == Cerramiento
    case HollowSlabs => k == PlacaAlveolar || k == Cubierta
    case Columns => k == Pilares || k == Pila || k == Cimentacion
  }

  /** `Math.max(0, Math.floor(d.qty || 0))`. */
  function QtyOf(d: Dims): (n: nat)
    ensures d.qty >= 0.0 ==> n as real <= d.qty < n as real + 1.0
    ensures d.qty < 0.0 ==> n == 0
  {
    var f := d.qty.Floor;
    if f < 0 then 0 else f
  }

  /** What one selected item adds to a bucket. */
  function BucketShare(k: PartKey, parts: map<PartKey, Partida>, b: Bucket): nat {
    if k in parts && InBucket(k, b) then QtyOf(parts[k].dims) else 0
  }

  /** A bucket's running total over the selection. */
  function BucketTotal(sel: seq<PartKey>, parts: map<PartKey, Partida>, b: Bucket): nat
    decreases |sel|
  {
    if sel == [] then 0
    else BucketTotal(sel[..|sel| - 1], parts, b) + BucketShare(sel[|sel| - 1], parts, b)
  }

  /** The quantity of every selected item with a record except "obra singular". */
  function CountedTotal(sel: seq<PartKey>, parts: map<PartKey, Partida>): nat
    decreases |sel|
  {
    if sel == [] then 0
    else
      var k := sel[|sel| - 1];
      CountedTotal(sel[..|sel| - 1], parts) + (if k in parts && k != ObraSingular then QtyOf(parts[k].dims) else 0)
  }

  /** Every key but "obra singular" is in exactly one bucket; "obra singular" in none. */
  lemma {:induction false} OneBucket(k: PartKey)
    ensures k == ObraSingular ==> forall b :: !InBucket(k, b)
    ensures k != ObraSingular ==>
      (if InBucket(k, Beams) then 1 else 0) + (if InBucket(k, Facade) then 1 else 0)
      + (if InBucket(k, HollowSlabs) then 1 else 0) + (if InBucket(k, Columns) then 1 else 0) == 1
  {
  }

  /** The four buckets together hold each counted quantity once: nothing is
      counted twice and only "obra singular" is left out. */
  lemma {:induction false} BucketsPartition(sel: seq<PartKey>, parts: map<PartKey, Partida>)
    ensures BucketTotal(sel, parts, Beams) + BucketTotal(sel, parts, Facade)
            + BucketTotal(sel, parts, HollowSlabs) + BucketTotal(sel, parts, Columns)
            == CountedTotal(sel, parts)
    decreases |sel|
  {
    if sel != [] {
      var k := sel[|sel| - 1];
      BucketsPartition(sel[..|sel| - 1], parts);
      OneBucket(k);
    }
  }

  /** The form fields `buildPayload` reads besides the items. */
  datatype FormInputs = FormInputs(
    ciudad: string,
    tipoObra: string,
    clienteEmpresa: string,
    contactoNombre: string,
    contactoEmail: string,
    fechaInicio: string,
    fechaFin: string,
    jornadasTexto: string,
    equipos: nat,
    jornada: string)

  /** The request body the form posts. */
  datatype Payload = Payload(
    cliente: string,
    contacto: string,
    email: string,
    obra: string,
    ciudad: string,
    tipoObra: string,
    vigasWt: nat,
    panelesFachada: nat,
    losasAlveolares: nat,
    pilares: nat,
    pesoMaxT: real,
    radioMaxM: real,
    jornadas: string,
    gruaPrevista: string,
    trabajoNoche: string)

  /** The middle dot between the days text and the number of teams. */
  const Separator: string := " \U{B7} "

  /** The payload for a form state: defaults for a missing client and dates,
      the four bucket totals, the two maxima, the days text with the number
      of teams, and the class always left to the technician. */
  function PayloadOf(st: Selection, f: FormInputs): Payload {
    Payload(
      if f.clienteEmpresa == "" then "Cliente" else f.clienteEmpresa,
      f.contactoNombre,
      f.contactoEmail,
      if f.fechaInicio != "" && f.fechaFin != "" then "Del " + f.fechaInicio + " al " + f.fechaFin else "",
      f.ciudad,
      f.tipoObra,
      BucketTotal(st.seleccion, st.partidas, Beams),
      BucketTotal(st.seleccion, st.partidas, Facade),
      BucketTotal(st.seleccion, st.partidas, HollowSlabs),
      BucketTotal(st.seleccion, st.partidas, Columns),
      MaxOver(st.seleccion, st.partidas, Weight),
      MaxOver(st.seleccion, st.partidas, Reach),
      f.jornadasTexto + Separator + NatToString(f.equipos) + " equipos",
      Quotation.UndecidedLabel,
      f.jornada)
  }

  /** How the quotation route reads the payload: every field the price
      depends on is present. */
  function ToBody(p: Payload): (b: Quotation.Body)
    ensures b.gruaPrevista == Some(p.gruaPrevista)
    ensures b.pesoMaxT == p.pesoMaxT && b.radioMaxM == p.radioMaxM
  {
    Quotation.Body(Some(p.ciudad), p.pesoMaxT, p.radioMaxM, Some(p.jornadas),
                   Some(p.gruaPrevista), Some(p.trabajoNoche))
  }

  /** The form never names a class, so the route prices the smallest class
      whose chart lifts the heaviest selected item at the longest selected
      radius (or leaves the crane to be agreed). */
  lemma {:induction false} FormRequestsChartClass(st: Selection, f: FormInputs)
    ensures Quotation.ParseBody(ToBody(PayloadOf(st, f))).requestedClass
            == Charts.ChoiceName(Charts.Recommended(MaxOver(st.seleccion, st.partidas, Weight),
                                                    MaxOver(st.seleccion, st.partidas, Reach)))
  {
    Quotation.UndecidedUsesCharts(ToBody(PayloadOf(st, f)));
  }

  /** The bucket totals sent never exceed the counted quantity, and add up to it. */
  lemma {:induction false} PayloadCountsEveryItem(st: Selection, f: FormInputs)
    ensures var p := PayloadOf(st, f);
      p.vigasWt + p.panelesFachada + p.losasAlveolares + p.pilares == CountedTotal(st.seleccion, st.partidas)
  {
    BucketsPartition(st.seleccion, st.partidas);
  }

  // ------------------------------------------------------------- the form

  /** The item state of the quotation page, updated in place by its handlers. */
  class FormState {
    var seleccion: seq<PartKey>
    var partidas: map<PartKey, Partida>
    var draft: map<PartKey, map<Field, string>>

    function State(): Selection
      reads this
    {
      Selection(seleccion, partidas, draft)
    }

    /** The page starts with nothing selected. */
    constructor ()
      ensures State() == Selection([], map[], map[])
      ensures Consistent(State())
    {
      seleccion := [];
      partidas := map[];
      draft := map[];
    }

    method TogglePartida(key: PartKey, nombre: string)
      modifies this
      ensures State() == Toggled(old(State()), key, nombre)
    {
      if key in seleccion {
        seleccion := Without(seleccion, key);
        partidas := partidas - {key};
        draft := draft - {key};
      } else {
        partidas := partidas[key := Partida(key, nombre, EmptyDims)];
        draft := draft[key := map[]];
        seleccion := seleccion + [key];
      }
    }

    method SetDraftField(key: PartKey, field: Field, text: string)
      modifies this
      ensures State() == DraftSet(old(State()), key, field, text)
    {
      if !DraftText(text) {
        return;
      }
      var entry := if key in draft then draft[key] else map[];
      draft := draft[key := entry[field := text]];
    }

    /** The heaviest weight and the longest radius over the selected items. */
    method DeriveMaxPesoRadio() returns (pesoMax: real, radioMax: real)
      ensures pesoMax == MaxOver(seleccion, partidas, Weight)
      ensures radioMax == MaxOver(seleccion, partidas, Reach)
    {
      pesoMax := 0.0;
      radioMax := 0.0;
      for i := 0 to |seleccion|
        invariant pesoMax == MaxOver(seleccion[..i], partidas, Weight)
        invariant radioMax == MaxOver(seleccion[..i], partidas, Reach)
      {
        var k := seleccion[i];
        assert seleccion[..i + 1][..i] == seleccion[..i];
        if k in partidas {
          var d := partidas[k].dims;
          if d.peso > pesoMax {
            pesoMax := d.peso;
          }
          if d.radio > radioMax {
            radioMax := d.radio;
          }
        }
      }
      assert seleccion[..|seleccion|] == seleccion;
    }

    /** The request body for the current items and form fields. */
    method BuildPayload(f: FormInputs) returns (p: Payload)
      ensures p == PayloadOf(State(), f)
    {
      var vigasWt, panelesFachada, losasAlveolares, pilares := 0, 0, 0, 0;
      for i := 0 to |seleccion|
        invariant vigasWt == BucketTotal(seleccion[..i], partidas, Beams)
        invariant panelesFachada == BucketTotal(seleccion[..i], partidas, Facade)
        invariant losasAlveolares == BucketTotal(seleccion[..i], partidas, HollowSlabs)
        invariant pilares == BucketTotal(seleccion[..i], partidas, Columns)
      {
        var k := seleccion[i];
        assert seleccion[..i + 1][..i] == seleccion[..i];
        if k in partidas {
          var qty := QtyOf(partidas[k].dims);
          if InBucket(k, Beams) {
            vigasWt := vigasWt + qty;
          }
          if InBucket(k, Facade) {
            panelesFachada := panelesFachada + qty;
          }
          if InBucket(k, HollowSlabs) {
            losasAlveolares := losasAlveolares + qty;
          }
          if InBucket(k, Columns) {
            pilares := pilares + qty;
          }
        }
      }
      assert seleccion[..|seleccion|] == seleccion;
      var pesoMax, radioMax := DeriveMaxPesoRadio();
      p := Payload(
        if f.clienteEmpresa == "" then "Cliente" else f.clienteEmpresa,
        f.contactoNombre,
        f.contactoEmail,
        if f.fechaInicio != "" && f.fechaFin != "" then "Del " + f.fechaInicio + " al " + f.fechaFin else "",
        f.ciudad,
        f.tipoObra,
        vigasWt, panelesFachada, losasAlveolares, pilares,
        pesoMax, radioMax,
        f.jornadasTexto + Separator + NatToString(f.equipos) + " equipos",
        Quotation.UndecidedLabel,
        f.jornada);
    }
  }

  // ------------------------------------------------------------- calendar

  /** A calendar page: a year and a month numbered 0 to 11. */
  datatype YearMonth = YearMonth(year: int, month: int)

  predicate ValidMonth(ym: YearMonth) {
    0 <= ym.month <= 11
  }

  /** Months counted from year 0, so consecutive pages differ by one. */
  function MonthIndex(ym: YearMonth): int {
    12 * ym.year + ym.month
  }

  /** `prevMonth`: one month back, into December of the year before after January. */
  function Prev(ym: YearMonth): YearMonth {
    var m := ym.month - 1;
    if m < 0 then YearMonth(ym.year - 1, 11) else YearMonth(ym.year, m)
  }

  /** `nextMonth`: one month on, into January of the year after after December. */
  function Next(ym: YearMonth): YearMonth {
    var m := ym.month + 1;
    if m > 11 then YearMonth(ym.year + 1, 0) else YearMonth(ym.year, m)
  }

  /** Both moves keep the month in 0..11 and move the page by exactly one month. */
  lemma {:induction false} MonthSteps(ym: YearMonth)
    requires ValidMonth(ym)
    ensures ValidMonth(Prev(ym)) && ValidMonth(Next(ym))
    ensures MonthIndex(Next(ym)) == MonthIndex(ym) + 1
    ensures MonthIndex(Prev(ym)) == MonthIndex(ym) - 1
  {
  }

  /** Next then previous, or previous then next, returns to the same page. */
  lemma {:induction false} MonthRoundTrip(ym: YearMonth)
    requires ValidMonth(ym)
    ensures Prev(Next(ym)) == ym && Next(Prev(ym)) == ym
  {
  }

  /** The calendar's displayed month, moved in place by its arrows. */
  class MonthCursor {
    var year: int
    var month: int

    function Page(): YearMonth
      reads this
    {
      YearMonth(year, month)
    }

    /** The calendar opens on a given month (`Date.getMonth()` is 0..11). */
    constructor (y: int, m: int)
      requires 0 <= m <= 11
      ensures Page() == YearMonth(y, m) && ValidMonth(Page())
    {
      year := y;
      month := m;
    }

    method PrevMonth()
      modifies this
      ensures Page() == Prev(old(Page()))
    {
      var y, m := year, month - 1;
      if m < 0 {
        m := 11;
        y := y - 1;
      }
      year, month := y, m;
    }

    method NextMonth()
      modifies this
      ensures Page() == Next(old(Page()))
    {
      var y, m := year, month + 1;
      if m > 11 {
        m := 0;
        y := y + 1;
      }
      year, month := y, m;
    }
  }
}
