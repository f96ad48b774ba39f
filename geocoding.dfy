/**
 * Address resolution for a reported location: validation of the
 * coordinates, the provider chain (Google, then MapBox, then Nominatim,
 * then an address made of the coordinates), the cleaning of a provider's
 * address text and the bounded retry around the chain.
 *
 * Each provider is an input: what it answered for the coordinates, or
 * that it found nothing or raised an error.
 */
module Geocoding {
  import opened Js

  // ---------------------------------------------------------------------
  // limpiarDireccion
  // ---------------------------------------------------------------------

  /** The length of the run of white space at the start of s. */
  function SpaceRun(s: string): (n: nat)
    ensures n <= |s|
    ensures forall i :: 0 <= i < n ==> IsSpace(s[i])
    ensures n < |s| ==> !IsSpace(s[n])
  {
    if s != [] && IsSpace(s[0]) then
      var n := 1 + SpaceRun(s[1..]);
      assert forall i :: 1 <= i < n ==> s[i] == s[1..][i - 1];
      n
    else
      0
  }

  /**
   * The length of the separator after the leading digits: the white space,
   * the comma if one follows it, and the white space after the comma, each
   * taken as far as it goes.
   */
  function SeparatorLength(t: string): (n: nat)
    ensures n <= |t| && SpaceRun(t) <= n
    ensures n > SpaceRun(t) ==> t[SpaceRun(t)] == ',' && forall i :: SpaceRun(t) < i < n ==> IsSpace(t[i])
    ensures SpaceRun(t) < |t| && t[SpaceRun(t)] == ',' ==> n > SpaceRun(t)
    ensures n < |t| ==> !IsSpace(t[n])
  {
    var b := SpaceRun(t);
    if b < |t| && t[b] == ',' then
      var rest := t[b + 1..];
      var c := SpaceRun(rest);
      assert forall i :: b < i < b + 1 + c ==> t[i] == rest[i - b - 1];
      assert b + 1 + c < |t| ==> t[b + 1 + c] == rest[c];
      b + 1 + c
    else
      b
  }

  /**
   * The first replacement: a run of digits at the very start goes, with the
   * separator after it. Nothing is removed unless the string starts with a digit.
   */
  function StripLeadingNumber(s: string): (r: string)
    ensures |r| <= |s| && r == s[|s| - |r|..]
    ensures s == [] || !IsDigit(s[0]) ==> r == s
    ensures s != [] && IsDigit(s[0]) ==>
              |s| - |r| == DigitRun(s) + SeparatorLength(s[DigitRun(s)..]) && (r != [] ==> !IsSpace(r[0]))
  {
    var a := DigitRun(s);
    if a == 0 then s
    else
      var t := s[a..];
      var n := SeparatorLength(t);
      assert n < |t| ==> s[a + n] == t[n];
      s[a + n..]
  }

  /**
   * The second and third replacements: when s ends with a comma, white
   * space and the word, those go.
   */
  function StripTrailing(s: string, word: string): (r: string)
    ensures r == s
            || (&& |r| + 1 + |word| <= |s|
                && s[..|r|] == r && s[|r|] == ','
                && s[|s| - |word|..] == word
                && forall i :: |r| < i < |s| - |word| ==> IsSpace(s[i]))
  {
    if |word| <= |s| && s[|s| - |word|..] == word then
      var u := TrimEnd(s[..|s| - |word|]);
      if u != [] && u[|u| - 1] == ',' then u[..|u| - 1] else s
    else
      s
  }

  /** Trailing white space after a last character that is not white space is exactly what TrimEnd removes. */
  lemma {:induction false} TrimEndAfter(x: string, w: string)
    requires x != [] && !IsSpace(x[|x| - 1])
    requires forall i :: 0 <= i < |w| ==> IsSpace(w[i])
    ensures TrimEnd(x + w) == x
    decreases |w|
  {
    if w == [] {
      assert x + w == x;
    } else {
      assert (x + w)[..|x + w| - 1] == x + w[..|w| - 1];
      TrimEndAfter(x, w[..|w| - 1]);
    }
  }

  /** A comma, any white space and the word at the end are removed. */
  lemma StripTrailingRemoves(p: string, w: string, word: string)
    requires forall i :: 0 <= i < |w| ==> IsSpace(w[i])
    ensures StripTrailing(p + "," + w + word, word) == p
  {
    var s := p + "," + w + word;
    assert s[|s| - |word|..] == word;
    assert s[..|s| - |word|] == (p + ",") + w;
    TrimEndAfter(p + ",", w);
  }

  /** Every white space character is a plain space and no two of them are adjacent. */
  predicate SingleSpaced(r: string)
  {
    && (forall i :: 0 <= i < |r| && IsSpace(r[i]) ==> r[i] == ' ')
    && (forall i :: 0 <= i < |r| - 1 ==> !(IsSpace(r[i]) && IsSpace(r[i + 1])))
  }

  /** Neither the first nor the last character is white space. */
  predicate Trimmed(r: string)
  {
    r != [] ==> !IsSpace(r[0]) && !IsSpace(r[|r| - 1])
  }

  /** The fourth replacement: each run of white space becomes one space. */
  function Collapse(s: string): (r: string)
    ensures SingleSpaced(r)
    ensures s != [] && !IsSpace(s[0]) ==> r != [] && r[0] == s[0]
    ensures NonSpace(r) == NonSpace(s)
    decreases |s|
  {
    if s == [] then []
    else if IsSpace(s[0]) then
      var n := SpaceRun(s);
      var rest := Collapse(s[n..]);
      NonSpaceSkip(s, n);
      ConsSingleSpaced(' ', rest);
      " " + rest
    else
      var rest := Collapse(s[1..]);
      ConsSingleSpaced(s[0], rest);
      [s[0]] + rest
  }

  /** Putting a character before a single-spaced string keeps it single-spaced unless two spaces meet. */
  lemma ConsSingleSpaced(c: char, rest: string)
    requires SingleSpaced(rest)
    requires IsSpace(c) ==> c == ' ' && (rest == [] || !IsSpace(rest[0]))
    ensures SingleSpaced([c] + rest)
  {
    var r := [c] + rest;
    forall i | 1 <= i < |r| ensures r[i] == rest[i - 1] { }
  }

  /** The characters of s that are not white space, in order. */
  function NonSpace(s: string): string
  {
    if s == [] then [] else (if IsSpace(s[0]) then [] else [s[0]]) + NonSpace(s[1..])
  }

  /** Skipping a prefix of white space keeps the characters that are not white space. */
  lemma {:induction false} NonSpaceSkip(s: string, n: nat)
    requires n <= |s| && forall i :: 0 <= i < n ==> IsSpace(s[i])
    ensures NonSpace(s[n..]) == NonSpace(s)
  {
    if n > 0 {
      assert s[1..][n - 1..] == s[n..];
      NonSpaceSkip(s[1..], n - 1);
    }
  }

  /** A slice of a single-spaced string is single-spaced. */
  lemma SliceSingleSpaced(s: string, k: nat, m: nat)
    requires SingleSpaced(s) && k <= m <= |s|
    ensures SingleSpaced(s[k..m])
  {
    var r := s[k..m];
    forall i | 0 <= i < |r| ensures r[i] == s[k + i] { }
  }

  /** `s.trim()` neither starts nor ends with white space. */
  lemma TrimShape(s: string)
    ensures Trimmed(Trim(s))
  {
    var t := TrimStart(s);
    var r := TrimEnd(t);
    if r != [] {
      assert r[0] == t[0];
    }
  }

  /** `s.trim()` keeps a single-spaced string single-spaced. */
  lemma TrimSingleSpaced(s: string)
    requires SingleSpaced(s)
    ensures SingleSpaced(Trim(s))
  {
    var t := TrimStart(s);
    var r := TrimEnd(t);
    assert t == s[|s| - |t|..|s|];
    SliceSingleSpaced(s, |s| - |t|, |s|);
    assert r == t[0..|r|];
    SliceSingleSpaced(t, 0, |r|);
  }

  /** The whole chain of replacements of `limpiarDireccion`, then the trim. */
  function Clean(s: string): (r: string)
    ensures Trimmed(r) && SingleSpaced(r)
  {
    var c := Collapse(StripTrailing(StripTrailing(StripLeadingNumber(s), "México"), "Mexico"));
    TrimShape(c);
    TrimSingleSpaced(c);
    Trim(c)
  }

  /**
   * limpiarDireccion: a falsy address is null; a string is cleaned; any other
   * value has no `replace`, so the call throws.
   */
  function CleanAddress(direccion: Value): (r: Reply<Value>)
    ensures !Truthy(direccion) ==> r == Ok(Null)
    ensures direccion.Str? && direccion.s != [] ==> r == Ok(Str(Clean(direccion.s)))
    ensures r.Fault? <==> Truthy(direccion) && !direccion.Str?
  {
    if !Truthy(direccion) then Ok(Null)
    else if direccion.Str? then Ok(Str(Clean(direccion.s)))
    else Fault("direccion.replace is not a function")
  }

  /**
   * Only one leading run of digits goes, so cleaning again can remove more:
   * the cleaning is not idempotent.
   */
  lemma CleanNotIdempotent(s: string, t: string, u: string)
    requires s == "12 34 Foo" && t == "34 Foo" && u == "Foo"
    ensures Clean(s) == t && Clean(t) == u
    ensures Clean(Clean(s)) != Clean(s)
  {
    assert s[3..] == t && t[3..] == u;
    LeadingRun(s, t);
    LeadingRun(t, u);
    CleanTail(t, u);
  }

  /** Two digits and a space go from the front of s. */
  lemma LeadingRun(s: string, t: string)
    requires |s| >= 3 && IsDigit(s[0]) && IsDigit(s[1]) && s[2] == ' ' && s[3..] == t
    requires t != [] && !IsSpace(t[0]) && t[0] != ','
    ensures StripLeadingNumber(s) == t
  {
    assert DigitRun(s[2..]) == 0;
    assert s[1..][1..] == s[2..];
    assert DigitRun(s) == 2;
    assert s[2..][1..] == t;
    assert SpaceRun(s[2..]) == 1;
  }

  /** The replacements after the first one leave "34 Foo" and "Foo" as they are. */
  lemma CleanTail(t: string, u: string)
    requires t == "34 Foo" && u == "Foo"
    ensures Trim(Collapse(StripTrailing(StripTrailing(t, "México"), "Mexico"))) == t
    ensures Trim(Collapse(StripTrailing(StripTrailing(u, "México"), "Mexico"))) == u
  {
    NoTrailingWord(t, "México");
    NoTrailingWord(t, "Mexico");
    NoTrailingWord(u, "México");
    NoTrailingWord(u, "Mexico");
    assert forall i :: 0 <= i < |t| && i != 2 ==> !IsSpace(t[i]);
    assert SingleSpaced(t);
    CollapseSingleSpaced(t);
    assert SingleSpaced(u);
    CollapseSingleSpaced(u);
    TrimmedUnchanged(t);
    TrimmedUnchanged(u);
  }

  /** A string that does not end with the word is left as it is. */
  lemma NoTrailingWord(t: string, word: string)
    requires word != [] && (|word| <= |t| ==> t[|t| - |word|] != word[0])
    ensures StripTrailing(t, word) == t
  {
    if |word| <= |t| {
      assert t[|t| - |word|..][0] == t[|t| - |word|];
    }
  }

  /** Trimming leaves a string that neither starts nor ends with white space as it is. */
  lemma TrimmedUnchanged(t: string)
    requires Trimmed(t)
    ensures Trim(t) == t
  {
  }

  /** Collapsing leaves a single-spaced string as it is. */
  lemma {:induction false} CollapseSingleSpaced(s: string)
    requires SingleSpaced(s)
    ensures Collapse(s) == s
    decreases |s|
  {
    if s != [] {
      SliceSingleSpaced(s, 1, |s|);
      CollapseSingleSpaced(s[1..]);
      if IsSpace(s[0]) {
        assert SpaceRun(s) == 1 + SpaceRun(s[1..]);
        assert SpaceRun(s) == 1;
      }
    }
  }

  /** The white-space run at the start of s is exactly n characters long. */
  lemma SpaceRunIs(s: string, n: nat)
    requires n <= |s| && forall i :: 0 <= i < n ==> IsSpace(s[i])
    requires n < |s| ==> !IsSpace(s[n])
    ensures SpaceRun(s) == n
  {
  }

  /** Collapsing a string of white space alone gives a single space. */
  lemma CollapseRun(w: string)
    requires w != [] && forall i :: 0 <= i < |w| ==> IsSpace(w[i])
    ensures Collapse(w) == " "
  {
    SpaceRunIs(w, |w|);
    assert w[|w|..] == [];
  }

  /** Collapsing a string with no white space leaves it as it is. */
  lemma CollapseNoSpace(s: string)
    requires forall i :: 0 <= i < |s| ==> !IsSpace(s[i])
    ensures Collapse(s) == s
  {
    CollapseSingleSpaced(s);
  }

  lemma Associate(a: string, b: string, c: string)
    ensures a + b + c == a + (b + c)
  {
  }

  /** One step of Collapse on a character that is not white space. */
  lemma CollapseKeeps(s: string)
    requires s != [] && !IsSpace(s[0])
    ensures Collapse(s) == [s[0]] + Collapse(s[1..])
  {
  }

  /** One step of Collapse on a leading run of m white-space characters. */
  lemma CollapseSkips(s: string, m: nat)
    requires 0 < m <= |s| && SpaceRun(s) == m
    ensures Collapse(s) == " " + Collapse(s[m..])
  {
  }

  /** The first step of Collapse on x + y when x starts with a character that is not white space. */
  lemma CollapseKeepsFront(x: string, y: string)
    requires x != [] && !IsSpace(x[0])
    ensures Collapse(x + y) == [x[0]] + Collapse(x[1..] + y)
  {
    var s := x + y;
    assert s[0] == x[0] && s[1..] == x[1..] + y;
    CollapseKeeps(s);
  }

  /** The first step of Collapse on x + y when x starts with a run of m white-space characters and goes on. */
  lemma CollapseSkipsFront(x: string, y: string, m: nat)
    requires 0 < m < |x| && SpaceRun(x) == m
    ensures Collapse(x + y) == " " + Collapse(x[m..] + y)
  {
    var s := x + y;
    SpaceRunPrefix(x, y);
    assert s[m..] == x[m..] + y;
    CollapseSkips(s, m);
  }

  /** CollapseAppend when x starts with a character that is not white space. */
  lemma CollapseAppendKeeps(x: string, y: string)
    requires x != [] && !IsSpace(x[0])
    requires Collapse(x[1..] + y) == Collapse(x[1..]) + Collapse(y)
    ensures Collapse(x + y) == Collapse(x) + Collapse(y)
  {
    CollapseKeepsFront(x, y);
    CollapseKeeps(x);
    Associate([x[0]], Collapse(x[1..]), Collapse(y));
  }

  /** A white-space run that ends inside x is the run of x + y as well. */
  lemma SpaceRunPrefix(x: string, y: string)
    requires SpaceRun(x) < |x|
    ensures SpaceRun(x + y) == SpaceRun(x)
  {
    var s, m := x + y, SpaceRun(x);
    assert forall i :: 0 <= i <= m ==> s[i] == x[i];
    SpaceRunIs(s, m);
  }

  /** CollapseAppend when x starts with a run of m white-space characters and goes on. */
  lemma CollapseAppendSkips(x: string, y: string, m: nat)
    requires 0 < m < |x| && SpaceRun(x) == m
    requires Collapse(x[m..] + y) == Collapse(x[m..]) + Collapse(y)
    ensures Collapse(x + y) == Collapse(x) + Collapse(y)
  {
    CollapseSkipsFront(x, y, m);
    CollapseSkips(x, m);
    Associate(" ", Collapse(x[m..]), Collapse(y));
  }

  /** CollapseAppend when x is white space alone and y does not start with any. */
  lemma CollapseAppendRun(x: string, y: string)
    requires x != [] && SpaceRun(x) == |x|
    requires y == [] || !IsSpace(y[0])
    ensures Collapse(x + y) == Collapse(x) + Collapse(y)
  {
    var s := x + y;
    assert forall i :: 0 <= i < |x| ==> s[i] == x[i];
    assert y != [] ==> s[|x|] == y[0];
    SpaceRunIs(s, |x|);
    assert s[|x|..] == y;
    CollapseSkips(s, |x|);
    CollapseRun(x);
  }

  /**
   * Collapsing works piece by piece as long as the cut does not fall inside a
   * run of white space.
   */
  lemma {:induction false} CollapseAppend(x: string, y: string)
    requires x == [] || y == [] || !IsSpace(x[|x| - 1]) || !IsSpace(y[0])
    ensures Collapse(x + y) == Collapse(x) + Collapse(y)
    decreases |x|
  {
    if x == [] {
      assert x + y == y;
    } else if y == [] {
      assert x + y == x;
    } else if !IsSpace(x[0]) {
      var x' := x[1..];
      assert x' != [] ==> x'[|x'| - 1] == x[|x| - 1];
      CollapseAppend(x', y);
      CollapseAppendKeeps(x, y);
    } else if SpaceRun(x) < |x| {
      var x' := x[SpaceRun(x)..];
      assert x'[|x'| - 1] == x[|x| - 1];
      CollapseAppend(x', y);
      CollapseAppendSkips(x, y, SpaceRun(x));
    } else {
      CollapseAppendRun(x, y);
    }
  }

  /** A run of white space between two other characters becomes exactly one space. */
  lemma CollapseJoin(x: string, w: string, y: string)
    requires x == [] || !IsSpace(x[|x| - 1])
    requires w != [] && forall i :: 0 <= i < |w| ==> IsSpace(w[i])
    requires y == [] || !IsSpace(y[0])
    ensures Collapse(x + w + y) == Collapse(x) + " " + Collapse(y)
  {
    var cx, cy := Collapse(x), Collapse(y);
    CollapseRun(w);
    CollapseAppend(w, y);
    assert Collapse(w + y) == " " + cy;
    CollapseAppend(x, w + y);
    Associate(x, w, y);
    Associate(cx, " ", cy);
  }

  // ---------------------------------------------------------------------
  // obtenerDireccionCompleta
  // ---------------------------------------------------------------------

  datatype Provider = Google | MapBox | Nominatim

  /** The order in which the providers are asked. */
  const Priority: seq<Provider> := [Google, MapBox, Nominatim]

  /** The fields a provider's first result supplies. */
  datatype ProviderAnswer = ProviderAnswer(direccion: Value, componentes: Value, lugarId: Value)

  /** A provider's reply: a result, nothing found (or no API key), or an error it raised. */
  datatype ProviderReply = Answered(answer: ProviderAnswer) | NoResult | Raised(message: string)

  /** An address record: `direccion_completa`, `componentes`, `lugar_id` and `tipo`. */
  datatype Address = Address(direccionCompleta: Value, componentes: Value, lugarId: Value, tipo: string)

  function Tag(p: Provider): string
  {
    match p
    case Google => "google"
    case MapBox => "mapbox"
    case Nominatim => "nominatim"
  }

  /** The address record a provider builds from its result. */
  function FromProvider(p: Provider, a: ProviderAnswer): Address
  {
    Address(a.direccion, a.componentes, a.lugarId, Tag(p))
  }

  /** The record made of the coordinates when every provider fails. */
  function CoordinatesAddress(latitud: Value, longitud: Value): Address
  {
    Address(Str("Coordenadas: " + Text(latitud) + ", " + Text(longitud)), Null, Null, "coordenadas")
  }

  /** Both coordinates are truthy and convert to numbers. */
  predicate ValidCoordinates(latitud: Value, longitud: Value)
  {
    Truthy(latitud) && Truthy(longitud) && !IsNaN(latitud) && !IsNaN(longitud)
  }

  /** The box of coordinates taken as Mexico. */
  predicate OutsideMexico(latitud: Value, longitud: Value)
  {
    LessThan(latitud, 14.0) || GreaterThan(latitud, 33.0)
    || LessThan(longitud, -118.0) || GreaterThan(longitud, -86.0)
  }

  /**
   * What resolving the coordinates gives: the address record (None for
   * invalid coordinates), the providers asked, in order, and whether the
   * out-of-Mexico warning was raised.
   */
  datatype Resolution = Resolution(address: Option<Address>, consulted: seq<Provider>, warnedOutsideMexico: bool)

  /** obtenerDireccionCompleta. `providers(p)` is what provider p replies for these coordinates. */
  function ResolveAddress(latitud: Value, longitud: Value, providers: Provider -> ProviderReply): (r: Resolution)
    ensures r.address.None? <==> !ValidCoordinates(latitud, longitud)
    ensures !ValidCoordinates(latitud, longitud) ==> r.consulted == [] && !r.warnedOutsideMexico
    ensures ValidCoordinates(latitud, longitud) ==> r.warnedOutsideMexico == OutsideMexico(latitud, longitud)
    ensures ValidCoordinates(latitud, longitud) && providers(Google).Answered? ==>
              r.address == Some(FromProvider(Google, providers(Google).answer)) && r.consulted == [Google]
    ensures ValidCoordinates(latitud, longitud) && !providers(Google).Answered? && providers(MapBox).Answered? ==>
              r.address == Some(FromProvider(MapBox, providers(MapBox).answer)) && r.consulted == [Google, MapBox]
    ensures ValidCoordinates(latitud, longitud) && !providers(Google).Answered? && !providers(MapBox).Answered?
            ==> r.consulted == Priority
                && r.address == Some(if providers(Nominatim).Answered?
                                     then FromProvider(Nominatim, providers(Nominatim).answer)
                                     else CoordinatesAddress(latitud, longitud))
  {
    if !ValidCoordinates(latitud, longitud) then Resolution(None, [], false)
    else
      var warned := OutsideMexico(latitud, longitud);
      var google := providers(Google);
      if google.Answered? then Resolution(Some(FromProvider(Google, google.answer)), [Google], warned)
      else
        var mapbox := providers(MapBox);
        if mapbox.Answered? then Resolution(Some(FromProvider(MapBox, mapbox.answer)), [Google, MapBox], warned)
        else
          var nominatim := providers(Nominatim);
          var address := if nominatim.Answered? then FromProvider(Nominatim, nominatim.answer)
                         else CoordinatesAddress(latitud, longitud);
          Resolution(Some(address), Priority, warned)
  }

  /** A zero coordinate is falsy, so it is rejected before any provider is asked. */
  lemma ZeroCoordinateRejected(scale: nat, longitud: Value, providers: Provider -> ProviderReply)
    ensures ResolveAddress(Num(Decimal(0, scale)), longitud, providers) == Resolution(None, [], false)
  {
    TruthyNumIsNonZero(Decimal(0, scale));
  }

  // ---------------------------------------------------------------------
  // obtenerDireccionConReintento
  // ---------------------------------------------------------------------

  const DefaultAttempts: int := 3

  /** The record returned when no attempt gives an address. */
  function FallbackAddress(latitud: Value, longitud: Value): Address
  {
    Address(Str("Ubicación: " + Text(latitud) + ", " + Text(longitud)), Null, Null, "fallback")
  }

  /** The providers' replies on attempt number `intento`. */
  function RepliesOn(providers: (int, Provider) -> ProviderReply, intento: int): Provider -> ProviderReply
  {
    p => providers(intento, p)
  }

  /**
   * What an attempt makes of the chain's record: the record with its address
   * cleaned, or None when there is no record, its address is falsy, or
   * cleaning it throws.
   */
  function CleanedRecord(found: Option<Address>): (r: Option<Address>)
    ensures r.Some? <==> found.Some? && found.value.direccionCompleta.Str? && found.value.direccionCompleta.s != []
    ensures r.Some? ==> r.value == found.value.(direccionCompleta := Str(Clean(found.value.direccionCompleta.s)))
  {
    if found.Some? && Truthy(found.value.direccionCompleta) then
      match CleanAddress(found.value.direccionCompleta)
      case Ok(limpia) => Some(found.value.(direccionCompleta := limpia))
      case Fault(_) => None
    else None
  }

  /** Attempt number `intento`. `providers(intento, p)` is provider p's reply on that attempt. */
  function Attempt(latitud: Value, longitud: Value, providers: (int, Provider) -> ProviderReply, intento: int): Option<Address>
  {
    CleanedRecord(ResolveAddress(latitud, longitud, RepliesOn(providers, intento)).address)
  }

  /** The steps of one attempt, in the order the loop takes them. */
  lemma AttemptSteps(latitud: Value, longitud: Value, providers: (int, Provider) -> ProviderReply, intento: int)
    ensures var found := ResolveAddress(latitud, longitud, RepliesOn(providers, intento)).address;
            Attempt(latitud, longitud, providers, intento)
            == if found.Some? && Truthy(found.value.direccionCompleta) && CleanAddress(found.value.direccionCompleta).Ok?
               then Some(found.value.(direccionCompleta := CleanAddress(found.value.direccionCompleta).value))
               else None
  {
  }

  /** The first outcome among attempts `intento` to `max` that gives a record, else `fallback`. */
  function FirstFound(outcome: int -> Option<Address>, intento: int, max: int, fallback: Address): Address
    decreases max - intento
  {
    if intento > max then fallback
    else if outcome(intento).Some? then outcome(intento).value
    else FirstFound(outcome, intento + 1, max, fallback)
  }

  /** One step of FirstFound: an attempt with a record ends the search, one without passes it on. */
  lemma FirstFoundStep(outcome: int -> Option<Address>, intento: int, max: int, fallback: Address)
    requires intento <= max
    ensures outcome(intento).Some? ==> FirstFound(outcome, intento, max, fallback) == outcome(intento).value
    ensures outcome(intento).None? ==> FirstFound(outcome, intento, max, fallback) == FirstFound(outcome, intento + 1, max, fallback)
  {
  }

  /** The outcome of each attempt, by attempt number. */
  function Attempts(latitud: Value, longitud: Value, providers: (int, Provider) -> ProviderReply): int -> Option<Address>
  {
    k => Attempt(latitud, longitud, providers, k)
  }

  /** The number of attempts: the caller's, or 3 when the argument is left out. */
  function MaxAttempts(maxIntentos: Option<int>): int
  {
    if maxIntentos.Some? then maxIntentos.value else DefaultAttempts
  }

  /**
   * obtenerDireccionConReintento: attempts 1 to the maximum in turn, the
   * first record with an address wins, with its address cleaned.
   * `intentos` counts the attempts made.
   */
  method ResolveWithRetry(latitud: Value, longitud: Value, maxIntentos: Option<int>,
                          providers: (int, Provider) -> ProviderReply)
    returns (r: Address, ghost intentos: nat)
    ensures r == FirstFound(Attempts(latitud, longitud, providers), 1, MaxAttempts(maxIntentos),
                            FallbackAddress(latitud, longitud))
    ensures intentos <= if MaxAttempts(maxIntentos) < 0 then 0 else MaxAttempts(maxIntentos)
  {
    var max := MaxAttempts(maxIntentos);
    ghost var outcome := Attempts(latitud, longitud, providers);
    ghost var fallback := FallbackAddress(latitud, longitud);
    intentos := 0;
    var intento := 1;
    while intento <= max
      invariant 1 <= intento <= if max >= 1 then max + 1 else 1
      invariant intentos == intento - 1
      invariant FirstFound(outcome, 1, max, fallback) == FirstFound(outcome, intento, max, fallback)
      decreases max - intento
    {
      intentos := intentos + 1;
      AttemptSteps(latitud, longitud, providers, intento);
      FirstFoundStep(outcome, intento, max, fallback);
      var resultado := ResolveAddress(latitud, longitud, RepliesOn(providers, intento)).address;
      if resultado.Some? && Truthy(resultado.value.direccionCompleta) {
        var limpia := CleanAddress(resultado.value.direccionCompleta);
        if limpia.Ok? {
          var conDireccion := resultado.value.(direccionCompleta := limpia.value);
          assert outcome(intento) == Some(conDireccion);
          return conDireccion, intentos;
        }
      }
      assert outcome(intento).None?;
      intento := intento + 1;
    }
    r := FallbackAddress(latitud, longitud);
  }

  /** The first attempt that gives a record decides the outcome. */
  lemma {:induction false} FirstFoundIsFirst(outcome: int -> Option<Address>, intento: int, max: int,
                                             fallback: Address, k: int)
    requires intento <= k <= max && outcome(k).Some?
    requires forall j :: intento <= j < k ==> outcome(j).None?
    ensures FirstFound(outcome, intento, max, fallback) == outcome(k).value
    decreases k - intento
  {
    if intento < k {
      FirstFoundIsFirst(outcome, intento + 1, max, fallback, k);
    }
  }

  /** When no attempt gives a record, the outcome is the fallback. */
  lemma {:induction false} FirstFoundNone(outcome: int -> Option<Address>, intento: int, max: int, fallback: Address)
    requires forall j :: intento <= j <= max ==> outcome(j).None?
    ensures FirstFound(outcome, intento, max, fallback) == fallback
    decreases max - intento
  {
    if intento <= max {
      FirstFoundNone(outcome, intento + 1, max, fallback);
    }
  }

  /** The outcome is the fallback or the record of one of the attempts. */
  lemma {:induction false} FirstFoundFromSome(outcome: int -> Option<Address>, intento: int, max: int, fallback: Address)
    ensures var r := FirstFound(outcome, intento, max, fallback);
            r == fallback || exists k :: intento <= k <= max && outcome(k) == Some(r)
    decreases max - intento
  {
    if intento <= max && outcome(intento).None? {
      FirstFoundFromSome(outcome, intento + 1, max, fallback);
    }
  }

  /** With no attempt at all (a maximum below 1), the fallback record comes back at once. */
  lemma NoAttemptsFallBack(latitud: Value, longitud: Value, providers: (int, Provider) -> ProviderReply, max: int)
    requires max < 1
    ensures FirstFound(Attempts(latitud, longitud, providers), 1, max, FallbackAddress(latitud, longitud))
            == FallbackAddress(latitud, longitud)
  {
  }

  /** Invalid coordinates give the fallback record, whatever the providers reply. */
  lemma InvalidCoordinatesFallBack(latitud: Value, longitud: Value, providers: (int, Provider) -> ProviderReply, max: int)
    requires !ValidCoordinates(latitud, longitud)
    ensures FirstFound(Attempts(latitud, longitud, providers), 1, max, FallbackAddress(latitud, longitud))
            == FallbackAddress(latitud, longitud)
  {
    var outcome := Attempts(latitud, longitud, providers);
    forall j | 1 <= j <= max ensures outcome(j).None? {
      assert outcome(j) == Attempt(latitud, longitud, providers, j);
    }
    FirstFoundNone(outcome, 1, max, FallbackAddress(latitud, longitud));
  }

  /** A record that is not the fallback carries a cleaned address: trimmed and single-spaced. */
  lemma RetryAddressIsClean(latitud: Value, longitud: Value, providers: (int, Provider) -> ProviderReply, max: int)
    ensures var r := FirstFound(Attempts(latitud, longitud, providers), 1, max, FallbackAddress(latitud, longitud));
            r == FallbackAddress(latitud, longitud)
            || (r.direccionCompleta.Str? && Trimmed(r.direccionCompleta.s) && SingleSpaced(r.direccionCompleta.s))
  {
    var outcome := Attempts(latitud, longitud, providers);
    var fallback := FallbackAddress(latitud, longitud);
    FirstFoundFromSome(outcome, 1, max, fallback);
    var r := FirstFound(outcome, 1, max, fallback);
    if r != fallback {
      var k :| 1 <= k <= max && outcome(k) == Some(r);
      assert outcome(k) == Attempt(latitud, longitud, providers, k);
    }
  }
}
