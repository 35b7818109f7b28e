/** The landing-page copy built from a city or a building type
    (`cityCopy`, `tipoCopy`). */
module Copy {
  import opened Text

  /** A page's title and description. */
  datatype PageCopy = PageCopy(title: string, desc: string)

  const CityTitleLead: string := "Montaje de prefabricados en "
  const CityDescLead: string :=
    "Cuadrillas especialistas, gr\U{FA}as 80\U{2013}500T+, transporte especial y planos de montaje en "
  const CityDescRest: string := ", losas alveolares, pilares, p\U{F3}rticos y fachada."

  const TipoTitleLead: string := "Montaje de prefabricados: "
  const TipoDescLead: string :=
    "Jefatura de montaje, contradirecci\U{F3}n, plan de izados, replanteo y as\U{2011}built para "
  const TipoDescTail: string :=
    ". Coordinaci\U{F3}n con Ibercarga y selecci\U{F3}n de gr\U{FA}as."

  /** `city[0].toUpperCase() + city.slice(1)`: the city with its first
      character upper-cased and the rest as given. */
  function Capitalised(city: string): (c: string)
    requires city != ""
    ensures |c| == |city| && c[0] == ToUpperChar(city[0])
    ensures forall i :: 1 <= i < |city| ==> c[i] == city[i]
  {
    [ToUpperChar(city[0])] + city[1..]
  }

  /** `cityCopy`. */
  function CityCopy(city: string): (p: PageCopy)
    requires city != ""
  {
    var c := Capitalised(city);
    PageCopy(CityTitleLead + c, CityDescLead + c + ". Vigas" + CityDescRest)
  }

  /** `tipoCopy`: the type with its first dash turned into a space. */
  function TipoCopy(tipo: string): (p: PageCopy)
  {
    var t := ReplaceFirst(tipo, '-', ' ');
    PageCopy(TipoTitleLead + t, TipoDescLead + t + TipoDescTail)
  }

  // ------------------------------------------------------------- properties

  /** The city title is the fixed lead followed by the capitalised city, whose
      remainder is the city as given. */
  lemma {:induction false} CityTitleNamesCity(city: string)
    requires city != ""
    ensures StartsWith(CityCopy(city).title, CityTitleLead)
    ensures CityCopy(city).title[|CityTitleLead|..] == Capitalised(city)
    ensures CityCopy(city).title[|CityTitleLead| + 1..] == city[1..]
  {
    var t := CityCopy(city).title;
    assert t[..|CityTitleLead|] == CityTitleLead;
    assert t[|CityTitleLead|..] == Capitalised(city);
  }

  /** The city description names the capitalised city right before ". Vigas". */
  lemma {:induction false} CityDescNamesCity(city: string)
    requires city != ""
    ensures Contains(CityCopy(city).desc, Capitalised(city) + ". Vigas")
  {
    var c := Capitalised(city);
    var d := CityCopy(city).desc;
    var i := |CityDescLead|;
    assert d[i..] == (c + ". Vigas") + CityDescRest;
    assert StartsWith(d[i..], c + ". Vigas");
  }

  /** Capitalising is idempotent, and a city that already starts with a
      capital letter is kept as given. */
  lemma {:induction false} CapitalisedIdempotent(city: string)
    requires city != ""
    ensures Capitalised(Capitalised(city)) == Capitalised(city)
    ensures 'A' <= city[0] <= 'Z' ==> Capitalised(city) == city
  {
    ToUpperIdempotent(city[0]);
    assert Capitalised(city)[1..] == city[1..];
    if 'A' <= city[0] <= 'Z' {
      assert Capitalised(city) == [city[0]] + city[1..];
    }
  }

  /** The type title is the fixed lead followed by the type with only its
      first dash replaced: every later dash is kept. */
  lemma {:induction false} TipoTitleFirstDash(tipo: string)
    ensures StartsWith(TipoCopy(tipo).title, TipoTitleLead)
    ensures TipoCopy(tipo).title[|TipoTitleLead|..] == ReplaceFirst(tipo, '-', ' ')
    ensures '-' !in tipo ==> TipoCopy(tipo).title[|TipoTitleLead|..] == tipo
    ensures forall j :: 0 <= j < |tipo| && tipo[j] == '-' && j != IndexOf(tipo, '-') ==>
      TipoCopy(tipo).title[|TipoTitleLead| + j] == '-'
    ensures '-' in tipo ==> TipoCopy(tipo).title[|TipoTitleLead| + IndexOf(tipo, '-')] == ' '
  {
    var t := ReplaceFirst(tipo, '-', ' ');
    var title := TipoCopy(tipo).title;
    ReplaceFirstSpec(tipo, '-', ' ');
    assert title[..|TipoTitleLead|] == TipoTitleLead;
    assert title[|TipoTitleLead|..] == t;
    assert forall j :: 0 <= j < |tipo| ==> title[|TipoTitleLead| + j] == t[j];
  }
}
