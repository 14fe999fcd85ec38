/** The constants of `config.py`: the English-to-Spanish month abbreviation
    map and the list of preventive-inspection sub-area columns. */
module Config {
  import opened Text
  import opened Tables

  /** `meses_esp`: English `%b` abbreviation to Spanish abbreviation. */
  const MesesEsp: map<string, string> := map[
    "Jan" := "Ene", "Feb" := "Feb", "Mar" := "Mar", "Apr" := "Abr",
    "May" := "May", "Jun" := "Jun", "Jul" := "Jul", "Aug" := "Ago",
    "Sep" := "Sep", "Oct" := "Oct", "Nov" := "Nov", "Dec" := "Dic"]

  /** The English abbreviations in calendar order, as `strftime('%b')`
      writes them for months 1 to 12. */
  const EnglishMonths: seq<string> :=
    ["Jan", "Feb", "Mar", "Apr", "May", "Jun", "Jul", "Aug", "Sep", "Oct", "Nov", "Dec"]

  /** `subareas_preventivos` */
  const SubareasPreventivos: seq<string> := [
    "Ubicación Bloque 1", "Ubicación Bloque 2", "Ubicación Bloque 3",
    "Ubicación Bloque 4", "Ubicación Bloque 5 (verde)", "Ubicación Bloque 6",
    "Ubicación Bloque 7", "Ubicación Bloque 8", "Ubicación Bloque 9",
    "Ubicación Bloque 10", "Ubicación Bloque 11", "Ubicación Bloque 12",
    "Ubicación Bloque 13", "Ubicación Bloque 14", "Ubicación Bloque 15",
    "Ubicación Bloque 16", "Ubicación Bloque 17",
    "Acopio de Basuras y portería", "Plantas de Emergencias",
    "Áreas Quirúrgicas", "Cuartos técnicos y gases medicinales",
    "Zona externa", "Torre A", "Torre B", "Torre C", "Torre D"]

  /** The English abbreviation of calendar month `m`. */
  function EnglishAbbrev(m: Month): (a: string)
    ensures a in MesesEsp && a == EnglishMonths[m - 1]
  {
    EnglishMonths[m - 1]
  }

  /** `meses_esp[strftime('%b')]` for calendar month `m`. */
  function SpanishAbbrev(m: Month): (v: string)
    ensures v in MesesEsp.Values
  {
    MesesEsp[EnglishAbbrev(m)]
  }

  predicate IsLetter(c: char)
  {
    'A' <= c <= 'Z' || 'a' <= c <= 'z'
  }

  /** Python's `a in s` on two strings. */
  predicate Occurs(a: string, s: string)
  {
    exists i | 0 <= i <= |s| - |a| :: a <= s[i..]
  }

  /** The keys of `meses_esp` are exactly the English abbreviations that
      `EnglishMonths` lists. */
  lemma MesesEspKeys()
    ensures forall k | k in MesesEsp :: k in EnglishMonths
    ensures forall i | 0 <= i < |EnglishMonths| :: EnglishMonths[i] in MesesEsp
  {
  }

  lemma EnglishMonthsDistinct()
    ensures NoDups(EnglishMonths)
  {
  }

  /** Only Jan, Apr, Aug and Dec get a different Spanish abbreviation; the
      other eight map to themselves. */
  lemma OnlyFourChange()
    ensures forall k | k in MesesEsp ::
      MesesEsp[k] != k <==> k == "Jan" || k == "Apr" || k == "Aug" || k == "Dec"
  {
  }

  /** Every Spanish abbreviation is three letters. */
  lemma SpanishShape(m: Month)
    ensures |SpanishAbbrev(m)| == 3
    ensures forall i | 0 <= i < 3 :: IsLetter(SpanishAbbrev(m)[i])
  {
  }

  /** The map is injective: distinct months get distinct Spanish abbreviations. */
  lemma SpanishInjective(m1: Month, m2: Month)
    ensures SpanishAbbrev(m1) == SpanishAbbrev(m2) <==> m1 == m2
  {
  }

  /** The reversed dict `{v: k for k, v in meses_esp.items()}`; it loses no
      entry because `meses_esp` is injective, so it is the exact inverse. */
  function MesesEng(): (inv: map<string, string>)
    ensures forall k | k in MesesEsp :: MesesEsp[k] in inv && inv[MesesEsp[k]] == k
    ensures forall v | v in inv :: inv[v] in MesesEsp && MesesEsp[inv[v]] == v
  {
    MesEspInjectiveKeys();
    map k | k in MesesEsp :: MesesEsp[k] := k
  }

  lemma MesEspInjectiveKeys()
    ensures forall a, b | a in MesesEsp && b in MesesEsp && MesesEsp[a] == MesesEsp[b] :: a == b
  {
  }

  /** The calendar month whose Spanish abbreviation is `v`, through the
      reversed dict. */
  function MonthOfSpanish(v: string): (m: Option<Month>)
    ensures m.Some? <==> v in MesesEng()
    ensures m.Some? ==> SpanishAbbrev(m.value) == v
  {
    if v !in MesesEng() then None
    else
      var e := MesesEng()[v];
      assert e in EnglishMonths by { MesesEspKeys(); }
      var i :| 0 <= i < 12 && EnglishMonths[i] == e;
      Some(i + 1)
  }

  /** Reading a label back: the month recovered from a Spanish abbreviation
      is the month that produced it. */
  lemma MonthOfSpanishRoundTrip(m: Month)
    ensures MonthOfSpanish(SpanishAbbrev(m)) == Some(m)
  {
    var r := MonthOfSpanish(SpanishAbbrev(m));
    SpanishInjective(r.value, m);
  }

  lemma WindowHasNonLetter(v: string, y: string, i: nat)
    requires |v| == 3 && IsDecimal(y) && 1 <= i && i + 3 <= |v + " " + y|
    ensures exists j | i <= j < i + 3 :: !IsLetter((v + " " + y)[j])
  {
    var s := v + " " + y;
    if i <= 3 {
      assert s[3] == ' ';
    } else {
      assert s[i] == y[i - 4];
      assert IsDigit(y[i - 4]);
    }
  }

  /** In a label `"<Spanish month> <year>"` the only Spanish abbreviation
      that occurs as a substring is the label's own month, so the substring
      search over the reversed dict finds the right month whatever its
      iteration order. */
  lemma LabelMonthUnique(m: Month, m2: Month, y: string)
    requires IsDecimal(y)
    ensures Occurs(SpanishAbbrev(m2), SpanishAbbrev(m) + " " + y) <==> m2 == m
  {
    var v, w := SpanishAbbrev(m), SpanishAbbrev(m2);
    var s := v + " " + y;
    SpanishShape(m);
    SpanishShape(m2);
    if m2 == m {
      assert w <= s[0..];
    } else if Occurs(w, s) {
      var i :| 0 <= i <= |s| - 3 && w <= s[i..];
      if i == 0 {
        assert s[0..3] == v;
        SpanishInjective(m, m2);
      } else {
        WindowHasNonLetter(v, y, i);
      }
    }
  }

  /** `subareas_preventivos` holds 26 distinct names. */
  lemma SubareasDistinct()
    ensures |SubareasPreventivos| == 26 && NoDups(SubareasPreventivos)
  {
  }
}
