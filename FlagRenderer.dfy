/**
 The flag renderer: which cards a search shows, in which order, and the
 loop of `generateFlags` that clears the grid and appends them.
 */
module FlagRenderer {
  import opened JsString
  import opened FlagUrls
  import opened CodeDirectory

  /** A rendered flag: its code, the image it shows and the image it downloads. */
  datatype Card = Card(code: string, svgUrl: string, pngUrl: string)

  /** The card `createFlagElement` builds for a code. */
  function CardFor(code: string): (c: Card)
    ensures c.code == code
    ensures SvgCode(c.svgUrl) == Some(code) && PngCode(c.pngUrl) == Some(code)
  {
    SvgUrlRoundTrip(code, SvgUrl(code));
    PngUrlRoundTrip(code, PngUrl(code));
    Card(code, SvgUrl(code), PngUrl(code))
  }

  /** Case-insensitive substring search of the name for the term. */
  predicate NameMatches(name: string, term: string)
  {
    Includes(Lower(name), Lower(term))
  }

  /** The name matches exactly when the folded term occurs somewhere in the folded name. */
  lemma NameMatchesIffOccurs(name: string, term: string)
    ensures NameMatches(name, term) <==> exists i :: OccursAt(Lower(name), Lower(term), i)
  {
    IncludesIffOccurs(Lower(name), Lower(term));
  }

  /** The entry is shown for the term: its name is a string that matches. */
  predicate IsMatch(e: Entry, term: string)
  {
    e.name.JString? && NameMatches(e.name.text, term)
  }

  /**
   How many entries the loop gets through before `toLowerCase` is called on a
   name that is not a string and throws.
   */
  function TextPrefix(d: Directory): (n: nat)
    ensures n <= |d|
    ensures forall i :: 0 <= i < n ==> d[i].name.JString?
    ensures n < |d| ==> d[n].name.JNonString?
  {
    if d == [] || d[0].name.JNonString? then 0 else 1 + TextPrefix(d[1..])
  }

  /** The loop stops on an exception, which the renderer catches and logs. */
  predicate Throws(d: Directory)
  {
    TextPrefix(d) < |d|
  }

  /** The cards one entry contributes: its own card when it matches, none otherwise. */
  function EntryCards(e: Entry, term: string): (r: seq<Card>)
  {
    if IsMatch(e, term) then [CardFor(e.code)] else []
  }

  /** The cards the grid holds after a render of `d` for `term`. */
  function Render(d: Directory, term: string): (r: seq<Card>)
    ensures |r| <= |d|
  {
    if d == [] || d[0].name.JNonString? then []
    else EntryCards(d[0], term) + Render(d[1..], term)
  }

  /**
   The order-preserving filter of `d`: the card of every matching entry, in
   order, defined without regard to the exception that stops the loop.
   */
  function Filter(d: Directory, term: string): (r: seq<Card>)
  {
    if d == [] then []
    else (if IsMatch(d[0], term) then [CardFor(d[0].code)] else []) + Filter(d[1..], term)
  }

  /** The grid is the order-preserving filter of the entries before the first non-string name. */
  lemma {:induction false} RenderIsFilter(d: Directory, term: string)
    ensures Render(d, term) == Filter(d[..TextPrefix(d)], term)
  {
    if d != [] && d[0].name.JString? {
      RenderIsFilter(d[1..], term);
      assert d[..TextPrefix(d)][1..] == d[1..][..TextPrefix(d[1..])];
    }
  }

  /** With only string names, the grid is the order-preserving filter of the whole directory. */
  lemma RenderIsFilterWhenNoThrow(d: Directory, term: string)
    requires !Throws(d)
    ensures Render(d, term) == Filter(d, term)
  {
    RenderIsFilter(d, term);
    assert d[..|d|] == d;
  }

  /** The number of matching entries of `d`, read independently of `Render`. */
  function CountMatches(d: Directory, term: string): (n: nat)
    ensures n <= |d|
  {
    if d == [] then 0
    else (if IsMatch(d[0], term) then 1 else 0) + CountMatches(d[1..], term)
  }

  lemma {:induction false} CountMatchesAppend(a: Directory, b: Directory, term: string)
    ensures CountMatches(a + b, term) == CountMatches(a, term) + CountMatches(b, term)
  {
    if a == [] {
      assert a + b == b;
    } else {
      assert (a + b)[1..] == a[1..] + b;
      CountMatchesAppend(a[1..], b, term);
    }
  }

  /** The grid holds one card per matching entry before the first non-string name. */
  lemma {:induction false} RenderLength(d: Directory, term: string)
    ensures |Render(d, term)| == CountMatches(d[..TextPrefix(d)], term)
  {
    if d != [] && d[0].name.JString? {
      RenderLength(d[1..], term);
      assert d[..TextPrefix(d)][1..] == d[1..][..TextPrefix(d[1..])];
    }
  }

  /**
   Every matching entry is rendered, at the position given by the number of
   matching entries before it: the render keeps the directory's order.
   */
  lemma {:induction false} RenderAt(d: Directory, term: string, i: nat)
    requires i < TextPrefix(d) && IsMatch(d[i], term)
    ensures CountMatches(d[..i], term) < |Render(d, term)|
    ensures Render(d, term)[CountMatches(d[..i], term)] == CardFor(d[i].code)
  {
    var head := EntryCards(d[0], term);
    assert Render(d, term) == head + Render(d[1..], term);
    if i == 0 {
      assert d[..0] == [];
    } else {
      RenderAt(d[1..], term, i - 1);
      assert d[..i][1..] == d[1..][..i - 1];
      assert CountMatches(d[..i], term) == |head| + CountMatches(d[1..][..i - 1], term);
    }
  }

  /** No card comes from an entry that does not match, or from past the exception. */
  lemma {:induction false} RenderSound(d: Directory, term: string, c: Card)
    requires c in Render(d, term)
    ensures exists i :: 0 <= i < TextPrefix(d) && IsMatch(d[i], term) && c == CardFor(d[i].code)
  {
    assert Render(d, term) == EntryCards(d[0], term) + Render(d[1..], term);
    if IsMatch(d[0], term) && c == CardFor(d[0].code) {
    } else {
      assert c in Render(d[1..], term);
      RenderSound(d[1..], term, c);
      var i :| 0 <= i < TextPrefix(d[1..]) && IsMatch(d[1..][i], term) && c == CardFor(d[1..][i].code);
      assert d[i + 1] == d[1..][i];
    }
  }

  /** Of two matching entries, the earlier one's card comes first. */
  lemma RenderOrder(d: Directory, term: string, i: nat, j: nat)
    requires i < j < TextPrefix(d) && IsMatch(d[i], term) && IsMatch(d[j], term)
    ensures CountMatches(d[..i], term) < CountMatches(d[..j], term) < |Render(d, term)|
    ensures Render(d, term)[CountMatches(d[..i], term)] == CardFor(d[i].code)
    ensures Render(d, term)[CountMatches(d[..j], term)] == CardFor(d[j].code)
  {
    RenderAt(d, term, i);
    RenderAt(d, term, j);
    assert d[..j] == d[..i] + [d[i]] + d[i + 1..j];
    CountMatchesAppend(d[..i] + [d[i]], d[i + 1..j], term);
    CountMatchesAppend(d[..i], [d[i]], term);
  }

  /** Distinct codes in the directory give distinct cards in the grid. */
  lemma {:induction false} RenderedCodesDistinct(d: Directory, term: string)
    requires DistinctCodes(d)
    ensures forall k, l :: 0 <= k < l < |Render(d, term)| ==> Render(d, term)[k].code != Render(d, term)[l].code
  {
    if d != [] && d[0].name.JString? {
      assert DistinctCodes(d[1..]);
      RenderedCodesDistinct(d[1..], term);
      if IsMatch(d[0], term) {
        var r := Render(d, term);
        assert r == [CardFor(d[0].code)] + Render(d[1..], term);
        forall l | 0 < l < |r|
          ensures r[l].code != d[0].code
        {
          assert r[l] in Render(d[1..], term);
          RenderSound(d[1..], term, r[l]);
        }
      }
    }
  }

  /** The default empty search shows every entry, as every name includes "". */
  lemma {:induction false} EmptyTermRendersAll(d: Directory)
    requires !Throws(d)
    ensures Render(d, "") == seq(|d|, i requires 0 <= i < |d| => CardFor(d[i].code))
  {
    if d != [] {
      assert d[0].name.JString?;
      IncludesEmpty(Lower(d[0].name.text));
      assert TextPrefix(d[1..]) == |d[1..]|;
      EmptyTermRendersAll(d[1..]);
    }
  }

  /** Searching with a folded term is the same search. */
  lemma SearchIgnoresCase(name: string, term: string)
    ensures NameMatches(name, term) == NameMatches(name, Lower(term))
    ensures NameMatches(name, term) == NameMatches(Lower(name), term)
  {
    LowerIdempotent(term);
    LowerIdempotent(name);
  }

  /** A failed fetch leaves the grid empty, with the failure logged once. */
  lemma FailedFetchRendersNothing(r: Response, term: string)
    requires !Succeeds(r)
    ensures Render(FetchCountryCodes(r).codes, term) == []
    ensures FetchCountryCodes(r).log == [FetchCodesError]
  {
  }

  /** With a `/`-free code, a rendered card downloads its PNG as `<code>.png`. */
  lemma CardDownloadsAsCode(d: Directory, term: string, c: Card)
    requires c in Render(d, term) && '/' !in c.code
    ensures DownloadFilename(c.pngUrl) == c.code + ".png"
  {
    RenderSound(d, term, c);
    PngFilename(c.code);
  }

  /** The directory {"fr": "France", "de": "Germany"} searched for "an" shows both flags. */
  lemma FranceGermanySearch()
    ensures Render([Entry("fr", JString("France")), Entry("de", JString("Germany"))], "an")
         == [CardFor("fr"), CardFor("de")]
  {
    assert Lower("an") == "an";
    assert Lower("France") == "france";
    assert Lower("Germany") == "germany";
    assert OccursAt("france", "an", 2);
    IncludesIffOccurs("france", "an");
    assert OccursAt("germany", "an", 4);
    IncludesIffOccurs("germany", "an");
    var d := [Entry("fr", JString("France")), Entry("de", JString("Germany"))];
    assert d[1..] == [Entry("de", JString("Germany"))];
    assert d[1..][1..] == [];
  }

  /**
   One step of the render loop: `acc` is what the grid holds before entry `i`;
   a string name adds its card when it matches, a non-string name ends the render.
   */
  lemma RenderStep(d: Directory, term: string, i: nat, acc: seq<Card>)
    requires i <= TextPrefix(d) && i < |d| && acc + Render(d[i..], term) == Render(d, term)
    ensures d[i].name.JNonString? ==> acc == Render(d, term) && Throws(d)
    ensures d[i].name.JString? ==> (acc + EntryCards(d[i], term)) + Render(d[i + 1..], term) == Render(d, term)
    ensures d[i].name.JString? ==> i + 1 <= TextPrefix(d)
  {
    assert d[i..][0] == d[i];
    assert d[i..][1..] == d[i + 1..];
  }

  /** The `.grid` container; its children are the cards it shows. */
  class Grid {
    var children: seq<Card>

    constructor ()
      ensures children == []
    {
      children := [];
    }

    /** `innerHTML = ""`. */
    method Clear()
      modifies this
      ensures children == []
    {
      children := [];
    }

    /** `appendChild`. */
    method AppendChild(c: Card)
      modifies this
      ensures children == old(children) + [c]
    {
      children := children + [c];
    }
  }

  /**
   `generateFlags(searchTerm)`: loads the directory, clears the grid, then walks
   the directory appending a card for every matching entry. `found` records
   whether a card was appended; `log` is what was written to the console.
   */
  method GenerateFlags(grid: Grid, response: Response, searchTerm: string)
    returns (found: bool, log: seq<Diagnostic>)
    modifies grid
    ensures grid.children == Render(FetchCountryCodes(response).codes, searchTerm)
    ensures found <==> grid.children != []
    ensures log == FetchCountryCodes(response).log
                   + (if Throws(FetchCountryCodes(response).codes) then [GenerateFlagsError] else [])
  {
    var loaded := FetchCountryCodes(response);
    log := loaded.log;
    grid.Clear();
    var thrown;
    found, thrown := AppendMatching(grid, loaded.codes, searchTerm);
    if thrown {
      log := log + [GenerateFlagsError];
    }
  }

  /**
   The `for…in` loop of `generateFlags` on a cleared grid: appends the card of
   every matching entry until a name that is not a string throws.
   */
  method AppendMatching(grid: Grid, countryCodes: Directory, searchTerm: string)
    returns (found: bool, thrown: bool)
    requires grid.children == []
    modifies grid
    ensures grid.children == Render(countryCodes, searchTerm)
    ensures found <==> grid.children != []
    ensures thrown == Throws(countryCodes)
  {
    ghost var wanted := Render(countryCodes, searchTerm);
    found, thrown := false, false;
    var i := 0;
    while i < |countryCodes|
      invariant i <= TextPrefix(countryCodes)
      invariant grid.children + Render(countryCodes[i..], searchTerm) == wanted
      invariant found <==> grid.children != []
    {
      ghost var acc := grid.children;
      RenderStep(countryCodes, searchTerm, i, acc);
      var countryName := countryCodes[i].name;
      if countryName.JNonString? {
        thrown := true;
        break;
      }
      if NameMatches(countryName.text, searchTerm) {
        found := true;
        var card := CardFor(countryCodes[i].code);
        assert EntryCards(countryCodes[i], searchTerm) == [card];
        grid.AppendChild(card);
        assert grid.children == acc + [card];
      } else {
        assert EntryCards(countryCodes[i], searchTerm) == [];
        assert acc + [] == acc;
      }
      i := i + 1;
    }
    assert !thrown ==> countryCodes[i..] == [];
  }

  /**
   Two renders with the same inputs leave the same grid: the second changes
   nothing that the first produced, and nothing from before either survives.
   */
  method RenderTwice(grid: Grid, response: Response, searchTerm: string)
    returns (first: seq<Card>)
    modifies grid
    ensures first == Render(FetchCountryCodes(response).codes, searchTerm)
    ensures grid.children == first
  {
    var _, _ := GenerateFlags(grid, response, searchTerm);
    first := grid.children;
    var _, _ := GenerateFlags(grid, response, searchTerm);
  }
}
