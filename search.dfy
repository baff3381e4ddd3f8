/**
 The browse search: the query is cut into tokens, and every catalog source
 (origin by origin) and every library collection whose lower-cased name
 contains all tokens is kept. Go's map iteration order is unspecified, so the
 loops pick the next key with `:|` and the results are specified by
 membership, absence of repeats and size, not by order.
 */
module Search {
  import opened GoStrings
  import opened Entities

  /** The characters trimmed from both ends of each piece. */
  const Blanks: set<char> := {' ', '\t'}

  /**
   A catalog *Source in a result list, identified by the map slot it was
   found in: its origin and its key in that origin.
   */
  datatype SourceRef = SourceRef(origin: string, key: string)

  /** The search template's data; collections are named by their library key. */
  datatype SearchData = SearchData(sources: seq<SourceRef>, collections: seq<string>, count: int)

  predicate NoRepeats<T(==)>(s: seq<T>) {
    forall i, j :: 0 <= i < j < |s| ==> s[i] != s[j]
  }

  /** The tokens of `q`: lower-cased, split at every single space, each piece trimmed of blanks. */
  function Tokens(q: string): (toks: seq<string>)
  {
    var pieces := Split(Lower(q), ' ');
    seq(|pieces|, i requires 0 <= i < |pieces| => Trim(pieces[i], Blanks))
  }

  /** A token is lower-case, holds no space and has no blank at either end. */
  predicate IsToken(t: string) {
    IsLower(t) && ' ' !in t && (t == [] || (t[0] !in Blanks && t[|t| - 1] !in Blanks))
  }

  /**
   One token per space-separated piece: one more token than `q` has spaces,
   empty pieces kept, and every token normalised.
   */
  lemma TokensShape(q: string)
    ensures |Tokens(q)| == CountChar(q, ' ') + 1
    ensures forall i :: 0 <= i < |Tokens(q)| ==> IsToken(Tokens(q)[i])
  {
    LowerKeepsSpaces(q);
    SplitOfLower(Lower(q), ' ');
    var pieces := Split(Lower(q), ' ');
    forall i | 0 <= i < |pieces| ensures IsToken(Tokens(q)[i]) {
      var t := Trim(pieces[i], Blanks);
      TrimmedPieceIsToken(pieces[i], t);
    }
  }

  lemma TrimmedPieceIsToken(piece: string, t: string)
    requires IsLower(piece) && ' ' !in piece
    requires t == Trim(piece, Blanks)
    ensures IsToken(t)
  {
    TrimRemovesOnlyCut(piece, Blanks);
    var i :| OccursAt(piece, t, i)
      && (forall k :: 0 <= k < i ==> piece[k] in Blanks)
      && (forall k :: i + |t| <= k < |piece| ==> piece[k] in Blanks);
    forall k | 0 <= k < |t| ensures t[k] == piece[i + k] {
      assert piece[i..i + |t|][k] == piece[i + k];
    }
  }

  /** Tokens joined by single spaces give the same tokens again. */
  lemma {:induction false} TokensIdempotent(q: string)
    ensures Tokens(Join(Tokens(q), ' ')) == Tokens(q)
  {
    var toks := Tokens(q);
    TokensShape(q);
    var joined := Join(toks, ' ');
    JoinOfLower(toks, ' ');
    LowerOfLower(joined);
    SplitJoin(toks, ' ');
    TokensOfNormalised(joined, toks);
  }

  /** A lower-case string whose pieces are already tokens has those pieces as its tokens. */
  lemma TokensOfNormalised(s: string, toks: seq<string>)
    requires Lower(s) == s && Split(s, ' ') == toks
    requires forall i :: 0 <= i < |toks| ==> IsToken(toks[i])
    ensures Tokens(s) == toks
  {
    forall i | 0 <= i < |toks| ensures Trim(toks[i], Blanks) == toks[i] {
      TrimTrimmed(toks[i], Blanks);
    }
  }

  lemma {:induction false} JoinOfLower(pieces: seq<string>, sep: char)
    requires !IsUpperAscii(sep)
    requires forall i :: 0 <= i < |pieces| ==> IsLower(pieces[i])
    ensures IsLower(Join(pieces, sep))
    decreases |pieces|
  {
    if |pieces| > 1 {
      JoinOfLower(pieces[1..], sep);
    }
  }

  /** A query of one space gives two empty tokens. */
  lemma BlankQueryTokens()
    ensures Tokens(" ") == ["", ""]
  {
    var pieces := Split(Lower(" "), ' ');
    assert Lower(" ") == " ";
    assert Split(" ", ' ') == ["", ""] by {
      assert " "[1..] == "";
    }
  }

  /** A name matches when its lower-cased form contains every token. */
  predicate Matches(name: string, toks: seq<string>) {
    forall i :: 0 <= i < |toks| ==> Index(Lower(name), toks[i]) != -1
  }

  /** Matching ignores ASCII case: names that lower-case alike match alike. */
  lemma MatchesIgnoresCase(a: string, b: string, toks: seq<string>)
    requires Lower(a) == Lower(b)
    ensures Matches(a, toks) <==> Matches(b, toks)
  {
  }

  /** Empty tokens match every name, so a query of blanks keeps the whole corpus. */
  lemma EmptyTokensMatchEverything(name: string, toks: seq<string>)
    requires forall i :: 0 <= i < |toks| ==> toks[i] == ""
    ensures Matches(name, toks)
  {
    forall i | 0 <= i < |toks| ensures Index(Lower(name), toks[i]) != -1 {
      IndexOfEmpty(Lower(name));
    }
  }

  lemma BlankQueryMatchesEverything(name: string)
    ensures Matches(name, Tokens(" "))
  {
    BlankQueryTokens();
    EmptyTokensMatchEverything(name, Tokens(" "));
  }

  /** The worked example: "cpu load" finds "CPU Load Avg" and not "Memory". */
  lemma CpuLoadExample()
    ensures Tokens("cpu load") == ["cpu", "load"]
    ensures Matches("CPU Load Avg", Tokens("cpu load"))
    ensures !Matches("Memory", Tokens("cpu load"))
  {
    CpuLoadTokens();
    CpuLoadMatches();
  }

  lemma CpuLoadTokens()
    ensures Tokens("cpu load") == ["cpu", "load"]
  {
    var toks := ["cpu", "load"];
    assert Join(toks, ' ') == "cpu load" by {
      assert Join(toks[1..], ' ') == "load";
    }
    assert IsToken("cpu") && IsToken("load");
    SplitJoin(toks, ' ');
    assert IsLower("cpu load");
    LowerOfLower("cpu load");
    TokensOfNormalised("cpu load", toks);
  }

  lemma CpuLoadMatches()
    ensures Matches("CPU Load Avg", ["cpu", "load"])
    ensures !Matches("Memory", ["cpu", "load"])
  {
    var low := Lower("CPU Load Avg");
    assert low == "cpu load avg";
    assert OccursAt(low, "cpu", 0);
    assert OccursAt(low, "load", 4);
    var mem := Lower("Memory");
    assert mem == "memory";
    assert 'c' !in mem;
    forall j | 0 <= j && j + 3 <= |mem| ensures !OccursAt(mem, "cpu", j) {
      assert mem[j] in mem;
    }
    assert Index(mem, "cpu") == -1;
    var toks := ["cpu", "load"];
    assert toks[0] == "cpu";
    assert Index(Lower("Memory"), toks[0]) == -1;
  }

  /** The tokens of `q`, built as serveBrowseSearch builds them: one trimmed piece per loop step. */
  method Tokenize(q: string) returns (chunks: seq<string>)
    ensures chunks == Tokens(q)
  {
    var pieces := Split(Lower(q), ' ');
    chunks := [];
    for i := 0 to |pieces|
      invariant |chunks| == i
      invariant forall k :: 0 <= k < i ==> chunks[k] == Trim(pieces[k], Blanks)
    {
      chunks := chunks + [Trim(pieces[i], Blanks)];
    }
  }

  /** The token loop with its early exit on the first token the name lacks. */
  method MatchName(name: string, chunks: seq<string>) returns (ok: bool)
    ensures ok <==> Matches(name, chunks)
  {
    var low := Lower(name);
    for i := 0 to |chunks|
      invariant forall k :: 0 <= k < i ==> Index(low, chunks[k]) != -1
    {
      if Index(low, chunks[i]) == -1 {
        return false;
      }
    }
    return true;
  }

  predicate IsSourceHit(cat: Catalog, toks: seq<string>, r: SourceRef) {
    r.origin in cat.origins && r.key in cat.origins[r.origin].sources
    && Matches(cat.origins[r.origin].sources[r.key].name, toks)
  }

  /** Every matching (origin, source) slot; a source under two origins is two slots. */
  function SourceHits(cat: Catalog, toks: seq<string>): (hits: set<SourceRef>)
    ensures forall r :: r in hits <==> IsSourceHit(cat, toks, r)
  {
    set o, k | o in cat.origins && k in cat.origins[o].sources
               && Matches(cat.origins[o].sources[k].name, toks) :: SourceRef(o, k)
  }

  predicate IsCollectionHit(lib: Library, toks: seq<string>, id: string) {
    id in lib.collections && Matches(lib.collections[id].name, toks)
  }

  function CollectionHits(lib: Library, toks: seq<string>): (hits: set<string>)
    ensures forall id :: id in hits <==> IsCollectionHit(lib, toks, id)
  {
    set id | id in lib.collections && Matches(lib.collections[id].name, toks)
  }

  /** A sequence without repeats has as many elements as the set of its elements. */
  lemma {:induction false} NoRepeatsSize<T>(s: seq<T>, elems: set<T>)
    requires NoRepeats(s)
    requires forall x :: x in elems <==> x in s
    ensures |s| == |elems|
    decreases |s|
  {
    if |s| > 0 {
      var last := s[|s| - 1];
      var init := s[..|s| - 1];
      assert last !in init;
      assert forall x :: x in elems - {last} <==> x in init by {
        assert s == init + [last];
      }
      NoRepeatsSize(init, elems - {last});
    }
  }

  /**
   The sources loop: every origin, then every source of that origin, is
   tested once; the slots of the matching sources are collected.
   */
  method SearchSources(cat: Catalog, chunks: seq<string>) returns (hits: seq<SourceRef>)
    ensures forall r :: r in hits <==> IsSourceHit(cat, chunks, r)
    ensures NoRepeats(hits)
    ensures |hits| == |SourceHits(cat, chunks)|
  {
    hits := [];
    var todo := cat.origins.Keys;
    while todo != {}
      invariant todo <= cat.origins.Keys
      invariant NoRepeats(hits)
      invariant forall r :: r in hits <==> IsSourceHit(cat, chunks, r) && r.origin !in todo
      decreases |todo|
    {
      var o :| o in todo;
      var sources := cat.origins[o].sources;
      var left := sources.Keys;
      while left != {}
        invariant left <= sources.Keys
        invariant NoRepeats(hits)
        invariant forall r :: r in hits <==>
          IsSourceHit(cat, chunks, r) && (r.origin !in todo || (r.origin == o && r.key !in left))
        decreases |left|
      {
        var k :| k in left;
        var ok := MatchName(sources[k].name, chunks);
        if ok {
          hits := hits + [SourceRef(o, k)];
        }
        left := left - {k};
      }
      todo := todo - {o};
    }
    NoRepeatsSize(hits, SourceHits(cat, chunks));
  }

  /** The collections loop: every library collection is tested once. */
  method SearchCollections(lib: Library, chunks: seq<string>) returns (hits: seq<string>)
    ensures forall id :: id in hits <==> IsCollectionHit(lib, chunks, id)
    ensures NoRepeats(hits)
    ensures |hits| == |CollectionHits(lib, chunks)|
  {
    hits := [];
    var left := lib.collections.Keys;
    while left != {}
      invariant left <= lib.collections.Keys
      invariant NoRepeats(hits)
      invariant forall id :: id in hits <==> IsCollectionHit(lib, chunks, id) && id !in left
      decreases |left|
    {
      var id :| id in left;
      var ok := MatchName(lib.collections[id].name, chunks);
      if ok {
        hits := hits + [id];
      }
      left := left - {id};
    }
    NoRepeatsSize(hits, CollectionHits(lib, chunks));
  }

  /**
   serveBrowseSearch without the template. An empty `q` searches nothing;
   otherwise both corpora are filtered by the tokens of `q`, and the count
   is the number of results of both kinds.
   */
  method SearchAll(q: string, cat: Catalog, lib: Library) returns (data: SearchData)
    ensures q == "" ==> data == SearchData([], [], 0)
    ensures q != "" ==> forall r :: r in data.sources <==> IsSourceHit(cat, Tokens(q), r)
    ensures q != "" ==> forall id :: id in data.collections <==> IsCollectionHit(lib, Tokens(q), id)
    ensures NoRepeats(data.sources) && NoRepeats(data.collections)
    ensures data.count == |data.sources| + |data.collections|
    ensures q != "" ==> data.count == |SourceHits(cat, Tokens(q))| + |CollectionHits(lib, Tokens(q))|
  {
    var sources: seq<SourceRef> := [];
    var collections: seq<string> := [];
    if q != "" {
      var chunks := Tokenize(q);
      sources := SearchSources(cat, chunks);
      collections := SearchCollections(lib, chunks);
    }
    data := SearchData(sources, collections, |sources| + |collections|);
  }

  /**
   A source key present under two origins is two results when its name
   matches in both: the search does not merge origins.
   */
  lemma SameKeyTwoOrigins(cat: Catalog, toks: seq<string>, o1: string, o2: string, k: string)
    requires o1 != o2
    requires IsSourceHit(cat, toks, SourceRef(o1, k)) && IsSourceHit(cat, toks, SourceRef(o2, k))
    ensures {SourceRef(o1, k), SourceRef(o2, k)} <= SourceHits(cat, toks)
    ensures |SourceHits(cat, toks)| >= 2
  {
    var two := {SourceRef(o1, k), SourceRef(o2, k)};
    var hits := SourceHits(cat, toks);
    assert |two| == 2;
    assert hits == (hits - two) + two;
  }
}
