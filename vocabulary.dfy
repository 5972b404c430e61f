/**
  The vocabulary table: a list of vocabulary lines with four special tokens
  (padding, begin-of-sequence, end-of-sequence, unknown) put in front, and the
  two dictionaries id -> token and token -> id built from that list once, at
  construction. Lookups in either direction never fail: a missing id yields
  the unknown token and a missing token yields the unknown token's id.
 */
module Vocabulary {
  import opened DefaultDicts
  import opened NestedLookup

  /** The four roles a special token can play. */
  datatype Role = Pad | Bos | Eos | Unk

  /** The strings chosen for the four special tokens of one vocabulary. */
  datatype Specials = Specials(pad: string, bos: string, eos: string, unk: string)
  {
    function Of(role: Role): string
    {
      match role
      case Pad => pad
      case Bos => bos
      case Eos => eos
      case Unk => unk
    }

    /** The four strings in slot order: padding, begin-of-sequence,
        end-of-sequence, unknown. */
    function List(): (r: seq<string>)
      ensures |r| == 4 && forall role :: r[Slot(role)] == Of(role)
    {
      [pad, bos, eos, unk]
    }
  }

  /** The slot of each role in front of the vocabulary lines. */
  function Slot(role: Role): nat
  {
    match role
    case Pad => 0
    case Bos => 1
    case Eos => 2
    case Unk => 3
  }

  /** The default special-token strings. */
  const DefaultSpecials := Specials("<PAD>", "<BOS>", "<EOS>", "<UNK>")

  /** The id the unknown token is placed at. */
  const UnkTokenIdx := 3

  /** Why a load failed: the special token playing `role` is already one of
      the vocabulary lines. */
  datatype LoadError = SpecialTokenExists(role: Role, token: string)

  datatype Result<T> = Ok(value: T) | Err(error: LoadError)

  /** Some special token is already one of the vocabulary lines. */
  predicate Collides(s: Specials, lines: seq<string>)
  {
    exists role :: s.Of(role) in lines
  }

  /** The position of a role in the order the load checks the roles in. */
  function CheckRank(role: Role): nat
  {
    match role
    case Bos => 0
    case Eos => 1
    case Unk => 2
    case Pad => 3
  }

  /** `e` reports the first role, in checking order, whose token is one of the
      lines. */
  predicate IsFirstCollision(s: Specials, lines: seq<string>, e: LoadError)
  {
    && e.token == s.Of(e.role)
    && e.token in lines
    && forall role :: CheckRank(role) < CheckRank(e.role) ==> s.Of(role) !in lines
  }

  /** The special tokens followed by the vocabulary lines: position `i` of this
      list is the token given id `i`. */
  function Combined(s: Specials, lines: seq<string>): seq<string>
  {
    s.List() + lines
  }

  /** The ids `0, 1, ..., n - 1`. */
  function Range(n: nat): seq<int>
  {
    seq(n, i => i)
  }

  /** The id -> token dictionary a successful load builds. */
  function IdToTokenTable(s: Specials, lines: seq<string>): DefaultDict<int, string>
  {
    var c := Combined(s, lines);
    DefaultDict(LastWriteMap(Range(|c|), c), s.unk)
  }

  /** The token -> id dictionary a successful load builds. */
  function TokenToIdTable(s: Specials, lines: seq<string>): DefaultDict<string, int>
  {
    var c := Combined(s, lines);
    DefaultDict(LastWriteMap(c, Range(|c|)), UnkTokenIdx)
  }

  predicate Distinct<T(==)>(s: seq<T>)
  {
    forall i, j :: 0 <= i < j < |s| ==> s[i] != s[j]
  }

  /** Rejects the lines when a special token is among them (checking the
      begin-of-sequence, end-of-sequence, unknown and padding tokens in that
      order), and otherwise builds the two dictionaries from the special tokens
      followed by the lines. */
  method Load(lines: seq<string>, s: Specials)
    returns (r: Result<(DefaultDict<int, string>, DefaultDict<string, int>)>)
    ensures r.Err? <==> Collides(s, lines)
    ensures r.Err? ==> IsFirstCollision(s, lines, r.error)
    ensures r.Ok? ==> r.value.0 == IdToTokenTable(s, lines) && r.value.1 == TokenToIdTable(s, lines)
  {
    if s.bos in lines {
      assert s.Of(Bos) in lines;
      return Err(SpecialTokenExists(Bos, s.bos));
    }
    if s.eos in lines {
      assert s.Of(Eos) in lines;
      return Err(SpecialTokenExists(Eos, s.eos));
    }
    if s.unk in lines {
      assert s.Of(Unk) in lines;
      return Err(SpecialTokenExists(Unk, s.unk));
    }
    if s.pad in lines {
      assert s.Of(Pad) in lines;
      return Err(SpecialTokenExists(Pad, s.pad));
    }
    assert forall role :: s.Of(role) !in lines;
    var vocab := [s.pad, s.bos, s.eos, s.unk] + lines;
    var vocabSize := |vocab|;
    var vocabIdx := Range(vocabSize);
    var idToToken := MakeDefaultDict(vocabIdx, vocab, s.unk);
    var tokenToId := MakeDefaultDict(vocab, vocabIdx, UnkTokenIdx);
    assert vocabIdx[..vocabSize] == vocabIdx && vocab[..vocabSize] == vocab;
    return Ok((idToToken, tokenToId));
  }

  /** A loaded vocabulary: its special tokens and its two dictionaries. */
  datatype Vocab = Vocab(specials: Specials, idToTokenMap: DefaultDict<int, string>,
                         tokenToIdMap: DefaultDict<string, int>)
  {
    /** The vocabulary was loaded from `lines`. */
    ghost predicate LoadedFrom(lines: seq<string>)
    {
      && !Collides(specials, lines)
      && idToTokenMap == IdToTokenTable(specials, lines)
      && tokenToIdMap == TokenToIdTable(specials, lines)
    }

    /** The vocabulary is the result of loading some list of lines. */
    ghost predicate Valid()
    {
      exists lines :: LoadedFrom(lines)
    }

    /** The number of keys of token -> id: the number of distinct tokens, that
        is, of distinct values of id -> token. */
    function Size(): (r: nat)
      ensures Valid() ==> r == |idToTokenMap.entries.Values|
    {
      ValidSize(this);
      |tokenToIdMap.entries|
    }

    function PadToken(): string { specials.pad }
    function BosToken(): string { specials.bos }
    function EosToken(): string { specials.eos }
    function UnkToken(): string { specials.unk }

    /** The padding token's id: the last special slot holding its string. */
    function PadTokenId(): (r: int)
      ensures Valid() ==> r == LastIndexOf(specials.List(), specials.pad)
    {
      ValidSpecialId(this, Pad);
      tokenToIdMap.Get(specials.pad)
    }

    /** The begin-of-sequence token's id: the last special slot holding its
        string. */
    function BosTokenId(): (r: int)
      ensures Valid() ==> r == LastIndexOf(specials.List(), specials.bos)
    {
      ValidSpecialId(this, Bos);
      tokenToIdMap.Get(specials.bos)
    }

    /** The end-of-sequence token's id: the last special slot holding its
        string. */
    function EosTokenId(): (r: int)
      ensures Valid() ==> r == LastIndexOf(specials.List(), specials.eos)
    {
      ValidSpecialId(this, Eos);
      tokenToIdMap.Get(specials.eos)
    }

    /** The unknown token's id, which is always 3. */
    function UnkTokenId(): (r: int)
      ensures Valid() ==> r == UnkTokenIdx
    {
      ValidSpecialId(this, Unk);
      tokenToIdMap.Get(specials.unk)
    }

    /** The special tokens in slot order; ids 0 to 3 map to them in turn. */
    function SpecialTokens(): (r: seq<string>)
      ensures |r| == 4 && forall role :: r[Slot(role)] == specials.Of(role)
      ensures Valid() ==> forall k :: 0 <= k < 4 ==> idToTokenMap.Get(k) == r[k]
    {
      ValidSpecialSlots(this);
      specials.List()
    }

    /** Each id looked up, keeping the nesting; a missing id gives the unknown
        token. */
    function MapIdsToTokens(ids: Nested<int>): (r: Nested<string>)
      ensures SameShape(ids, r)
      ensures PointwiseLookup(idToTokenMap.entries, specials.unk, Leaves(ids), Leaves(r))
    {
      Lookup(idToTokenMap.entries, ids, UnkToken())
    }

    /** Each token looked up, keeping the nesting; a missing token gives the
        unknown token's id, which is 3 once loaded. */
    function MapTokensToIds(tokens: Nested<string>): (r: Nested<int>)
      ensures SameShape(tokens, r)
      ensures PointwiseLookup(tokenToIdMap.entries, UnkTokenId(), Leaves(tokens), Leaves(r))
      ensures Valid() ==> PointwiseLookup(tokenToIdMap.entries, UnkTokenIdx, Leaves(tokens), Leaves(r))
    {
      Lookup(tokenToIdMap.entries, tokens, UnkTokenId())
    }
  }

  /** Builds a vocabulary from its lines, failing as the load does. */
  method NewVocab(lines: seq<string>, s: Specials) returns (r: Result<Vocab>)
    ensures r.Err? <==> Collides(s, lines)
    ensures r.Err? ==> IsFirstCollision(s, lines, r.error)
    ensures r.Ok? ==> r.value.specials == s && r.value.LoadedFrom(lines)
  {
    var loaded := Load(lines, s);
    match loaded
    case Err(e) =>
      r := Err(e);
    case Ok(maps) =>
      r := Ok(Vocab(s, maps.0, maps.1));
  }

  // ---------------------------------------------------------------------------
  // Properties of a loaded vocabulary

  lemma NoSpecialInLines(s: Specials, lines: seq<string>, role: Role)
    requires !Collides(s, lines)
    ensures s.Of(role) !in lines
  {
  }

  lemma RangeAt(n: nat, i: int)
    ensures i in Range(n) <==> 0 <= i < n
    ensures 0 <= i < n ==> Range(n)[i] == i && IsLastOccurrence(Range(n), i)
  {
    if 0 <= i < n {
      assert Range(n)[i] == i;
    }
  }

  /** The id -> token dictionary holds exactly the ids `0 .. |lines| + 3`, the
      positions of the combined list (more than `Size()` ids when lines
      repeat), sends each to its position in the combined list (so line `k`
      has id `k + 4`), and yields the unknown token for every other id. */
  lemma IdToTokenAt(v: Vocab, lines: seq<string>, i: int)
    requires v.LoadedFrom(lines)
    ensures i in v.idToTokenMap.entries <==> 0 <= i < |lines| + 4
    ensures v.idToTokenMap.Get(i) ==
      if 0 <= i < |lines| + 4 then Combined(v.specials, lines)[i] else v.UnkToken()
    ensures 4 <= i < |lines| + 4 ==> v.idToTokenMap.Get(i) == lines[i - 4]
  {
    var c := Combined(v.specials, lines);
    RangeAt(|c|, i);
    if 0 <= i < |c| {
      LastWriteMapAt(Range(|c|), c, i);
    }
  }

  /** A token of the combined list has the id of its last occurrence there;
      any other token is missing and yields the unknown token's id, 3. */
  lemma TokenToIdAt(v: Vocab, lines: seq<string>, t: string)
    requires v.LoadedFrom(lines)
    ensures t in v.tokenToIdMap.entries <==> t in Combined(v.specials, lines)
    ensures v.tokenToIdMap.Get(t) ==
      if t in Combined(v.specials, lines) then LastIndexOf(Combined(v.specials, lines), t) else 3
  {
  }

  /** The last occurrence of a token absent from `b` lies within `a`. */
  lemma {:induction false} LastIndexOfPrefix<T>(a: seq<T>, b: seq<T>, x: T)
    requires x !in b
    ensures LastIndexOf(a + b, x) == LastIndexOf(a, x)
  {
    if x in a {
      var i := LastIndexOf(a, x);
      assert (a + b)[i] == x;
      LastIndexOfAt(a + b, i);
    } else {
      assert x !in a + b;
    }
  }

  /** In a loaded vocabulary a special token's id is the last of the four
      special slots that holds its string, and the unknown token's is 3. */
  lemma SpecialSlotId(v: Vocab, lines: seq<string>, role: Role)
    requires v.LoadedFrom(lines)
    ensures v.tokenToIdMap.Get(v.specials.Of(role)) == LastIndexOf(v.specials.List(), v.specials.Of(role))
    ensures v.tokenToIdMap.Get(v.specials.unk) == UnkTokenIdx
  {
    var sp := v.specials.List();
    forall r: Role
      ensures v.tokenToIdMap.Get(v.specials.Of(r)) == LastIndexOf(sp, v.specials.Of(r))
    {
      NoSpecialInLines(v.specials, lines, r);
      LastIndexOfPrefix(sp, lines, v.specials.Of(r));
      assert v.specials.Of(r) == sp[Slot(r)];
      TokenToIdAt(v, lines, v.specials.Of(r));
    }
    assert v.specials.Of(Unk) == v.specials.unk;
    LastIndexOfAt(sp, 3);
  }

  lemma ValidSpecialId(v: Vocab, role: Role)
    ensures v.Valid() ==>
      v.tokenToIdMap.Get(v.specials.Of(role)) == LastIndexOf(v.specials.List(), v.specials.Of(role))
    ensures v.Valid() ==> v.tokenToIdMap.Get(v.specials.unk) == UnkTokenIdx
  {
    if v.Valid() {
      var lines :| v.LoadedFrom(lines);
      SpecialSlotId(v, lines, role);
    }
  }

  lemma ValidSpecialSlots(v: Vocab)
    ensures v.Valid() ==> forall k :: 0 <= k < 4 ==> v.idToTokenMap.Get(k) == v.specials.List()[k]
  {
    if v.Valid() {
      var lines :| v.LoadedFrom(lines);
      forall k | 0 <= k < 4
        ensures v.idToTokenMap.Get(k) == v.specials.List()[k]
      {
        IdToTokenAt(v, lines, k);
      }
    }
  }

  /** In a loaded vocabulary both dictionaries hold the distinct tokens of the
      combined list: as keys of token -> id and as values of id -> token. */
  lemma ValidSize(v: Vocab)
    ensures v.Valid() ==> |v.tokenToIdMap.entries| == |v.idToTokenMap.entries.Values|
  {
    if v.Valid() {
      var lines :| v.LoadedFrom(lines);
      var c := Combined(v.specials, lines);
      var m := v.idToTokenMap.entries;
      assert v.tokenToIdMap.entries.Keys == set t | t in c;
      forall t | t in c
        ensures t in m.Values
      {
        var i :| 0 <= i < |c| && c[i] == t;
        IdToTokenAt(v, lines, i);
        assert m[i] == t;
      }
      forall t | t in m.Values
        ensures t in c
      {
        var i :| i in m && m[i] == t;
        IdToTokenAt(v, lines, i);
      }
      assert m.Values == set t | t in c;
    }
  }

  /** A special token's id is the last slot among the four special slots that
      holds its string: when special tokens coincide, the later slot wins.
      A corollary of the contracts of the `*TokenId` accessors, stated for a
      vocabulary loaded from given lines. */
  lemma SpecialTokenIds(v: Vocab, lines: seq<string>)
    requires v.LoadedFrom(lines)
    ensures v.PadTokenId() == LastIndexOf(v.SpecialTokens(), v.PadToken())
    ensures v.BosTokenId() == LastIndexOf(v.SpecialTokens(), v.BosToken())
    ensures v.EosTokenId() == LastIndexOf(v.SpecialTokens(), v.EosToken())
    ensures v.UnkTokenId() == LastIndexOf(v.SpecialTokens(), v.UnkToken())
  {
    assert v.Valid();
  }

  /** The unknown token always has id 3: a corollary of `SpecialTokenIds`
      (and of the contract of `Vocab.UnkTokenId`). */
  lemma UnkTokenIdIsThree(v: Vocab, lines: seq<string>)
    requires v.LoadedFrom(lines)
    ensures v.UnkTokenId() == 3
  {
    SpecialTokenIds(v, lines);
    LastIndexOfAt(v.SpecialTokens(), 3);
  }

  /** With four distinct special strings the ids are pad 0, bos 1, eos 2,
      unk 3. */
  lemma SpecialTokenIdsWhenDistinct(v: Vocab, lines: seq<string>)
    requires v.LoadedFrom(lines) && Distinct(v.SpecialTokens())
    ensures v.PadTokenId() == 0 && v.BosTokenId() == 1
    ensures v.EosTokenId() == 2 && v.UnkTokenId() == 3
  {
    SpecialTokenIds(v, lines);
    var sp := v.SpecialTokens();
    LastIndexOfAt(sp, 0);
    LastIndexOfAt(sp, 1);
    LastIndexOfAt(sp, 2);
    LastIndexOfAt(sp, 3);
  }

  /** The default special tokens get the ids 0, 1, 2, 3. */
  lemma DefaultSpecialTokenIds(v: Vocab, lines: seq<string>)
    requires v.LoadedFrom(lines) && v.specials == DefaultSpecials
    ensures v.PadTokenId() == 0 && v.BosTokenId() == 1
    ensures v.EosTokenId() == 2 && v.UnkTokenId() == 3
  {
    var sp := v.SpecialTokens();
    assert forall i, j :: 0 <= i < j < 4 ==> sp[i][1] != sp[j][1];
    SpecialTokenIdsWhenDistinct(v, lines);
  }

  /** The special tokens are listed in id order: the first four slots of the
      combined list, each of the ids 0 to 3 mapping back to its slot. */
  lemma SpecialTokensInIdOrder(v: Vocab, lines: seq<string>, k: int)
    requires v.LoadedFrom(lines) && 0 <= k < 4
    ensures v.SpecialTokens() == Combined(v.specials, lines)[..4]
    ensures v.MapIdsToTokens(Leaf(k)) == Leaf(v.SpecialTokens()[k])
  {
    IdToTokenAt(v, lines, k);
  }

  /** A token missing from the table maps to the unknown id, 3. */
  lemma UnknownTokenMapsToUnkId(v: Vocab, lines: seq<string>, t: string)
    requires v.LoadedFrom(lines) && t !in Combined(v.specials, lines)
    ensures v.MapTokensToIds(Leaf(t)) == Leaf(3)
  {
    UnkTokenIdIsThree(v, lines);
    TokenToIdAt(v, lines, t);
  }

  /** An id outside `0 .. |lines| + 3`, the positions of the combined list,
      maps to the unknown token. */
  lemma UnknownIdMapsToUnkToken(v: Vocab, lines: seq<string>, i: int)
    requires v.LoadedFrom(lines) && (i < 0 || i >= |lines| + 4)
    ensures v.MapIdsToTokens(Leaf(i)) == Leaf(v.UnkToken())
  {
    IdToTokenAt(v, lines, i);
  }

  /** Every token of the table comes back from its id. */
  lemma TokenRoundTrip(v: Vocab, lines: seq<string>, t: string)
    requires v.LoadedFrom(lines) && t in Combined(v.specials, lines)
    ensures v.idToTokenMap.Get(v.tokenToIdMap.Get(t)) == t
  {
    TokenToIdAt(v, lines, t);
    IdToTokenAt(v, lines, v.tokenToIdMap.Get(t));
  }

  /** An id in range comes back from its token exactly when it is the last
      occurrence of that token in the combined list. */
  lemma IdRoundTrip(v: Vocab, lines: seq<string>, i: int)
    requires v.LoadedFrom(lines) && 0 <= i < |lines| + 4
    ensures v.tokenToIdMap.Get(v.idToTokenMap.Get(i)) == i
        <==> IsLastOccurrence(Combined(v.specials, lines), i)
  {
    var c := Combined(v.specials, lines);
    IdToTokenAt(v, lines, i);
    TokenToIdAt(v, lines, c[i]);
    LastIndexOfAt(c, i);
  }

  /** Mapping nested tokens of the table to ids and back gives them again. */
  lemma MapRoundTrip(v: Vocab, lines: seq<string>, tokens: Nested<string>)
    requires v.LoadedFrom(lines)
    requires forall t :: t in Leaves(tokens) ==> t in Combined(v.specials, lines)
    ensures v.MapIdsToTokens(v.MapTokensToIds(tokens)) == tokens
  {
    forall t | t in Leaves(tokens)
      ensures GetOr(v.idToTokenMap.entries, GetOr(v.tokenToIdMap.entries, t, v.UnkTokenId()), v.UnkToken()) == t
    {
      TokenRoundTrip(v, lines, t);
    }
    LookupRoundTrip(v.tokenToIdMap.entries, v.UnkTokenId(), v.idToTokenMap.entries, v.UnkToken(), tokens);
  }

  lemma {:induction false} DistinctCard<T>(s: seq<T>)
    requires Distinct(s)
    ensures |set x | x in s| == |s|
  {
    if s != [] {
      var init := s[..|s| - 1];
      DistinctCard(init);
      assert (set x | x in s) == (set x | x in init) + {s[|s| - 1]};
    }
  }

  /** The size is the number of distinct strings among the special tokens and
      the lines; it counts the special tokens and the lines apart, since they
      share no string. */
  lemma SizeCountsDistinctTokens(v: Vocab, lines: seq<string>)
    requires v.LoadedFrom(lines)
    ensures v.Size() == |set t | t in Combined(v.specials, lines)|
    ensures v.Size() == |set t | t in v.SpecialTokens()| + |set t | t in lines|
  {
    var c := Combined(v.specials, lines);
    var sp := v.SpecialTokens();
    assert v.tokenToIdMap.entries.Keys == set t | t in c;
    assert (set t | t in c) == (set t | t in sp) + (set t | t in lines);
    forall t | t in sp
      ensures t !in lines
    {
      if t == v.specials.pad { NoSpecialInLines(v.specials, lines, Pad); }
      if t == v.specials.bos { NoSpecialInLines(v.specials, lines, Bos); }
      if t == v.specials.eos { NoSpecialInLines(v.specials, lines, Eos); }
      if t == v.specials.unk { NoSpecialInLines(v.specials, lines, Unk); }
    }
    assert (set t | t in sp) * (set t | t in lines) == {};
  }

  /** With distinct special tokens and distinct lines the size is the number
      of lines plus four. */
  lemma SizeOfDistinctVocab(v: Vocab, lines: seq<string>)
    requires v.LoadedFrom(lines) && Distinct(v.SpecialTokens()) && Distinct(lines)
    ensures v.Size() == |lines| + 4
  {
    SizeCountsDistinctTokens(v, lines);
    DistinctCard(v.SpecialTokens());
    DistinctCard(lines);
  }

  // ---------------------------------------------------------------------------
  // Worked examples with the default special tokens

  /** No default special token is "cat" or "dog", the two lines are distinct,
      and "fish" is not in their combined list. */
  lemma CatDogLines()
    ensures !Collides(DefaultSpecials, ["cat", "dog"])
    ensures Distinct(["cat", "dog"])
    ensures "fish" !in Combined(DefaultSpecials, ["cat", "dog"])
  {
    assert forall role :: DefaultSpecials.Of(role)[0] == '<';
    var lines := ["cat", "dog"];
    assert lines[0][0] != lines[1][0];
    var c := Combined(DefaultSpecials, lines);
    assert forall i :: 0 <= i < |c| ==> c[i][0] != 'f';
  }

  /** A vocabulary loaded from "cat" and "dog" with the default special
      tokens gives "cat" id 4 and "dog" id 5. */
  lemma CatDogIds(v: Vocab)
    requires v.LoadedFrom(["cat", "dog"]) && v.specials == DefaultSpecials
    ensures v.MapTokensToIds(Leaf("cat")) == Leaf(4)
    ensures v.MapTokensToIds(Leaf("dog")) == Leaf(5)
  {
    var lines := ["cat", "dog"];
    CatDogLines();
    var c := Combined(DefaultSpecials, lines);
    assert c[4] == "cat" && c[5] == "dog";
    LastIndexOfAt(c, 4);
    LastIndexOfAt(c, 5);
    TokenToIdAt(v, lines, "cat");
    TokenToIdAt(v, lines, "dog");
  }

  /** ... and "fish" the unknown id 3 and id 0 the padding token ... */
  lemma CatDogFallbacks(v: Vocab)
    requires v.LoadedFrom(["cat", "dog"]) && v.specials == DefaultSpecials
    ensures v.MapTokensToIds(Leaf("fish")) == Leaf(3)
    ensures v.MapIdsToTokens(Leaf(0)) == Leaf("<PAD>")
  {
    var lines := ["cat", "dog"];
    CatDogLines();
    UnknownTokenMapsToUnkId(v, lines, "fish");
    SpecialTokensInIdOrder(v, lines, 0);
  }

  /** ... and six tokens in all. */
  lemma CatDogSize(v: Vocab)
    requires v.LoadedFrom(["cat", "dog"]) && v.specials == DefaultSpecials
    ensures v.Size() == 6
  {
    var lines := ["cat", "dog"];
    CatDogLines();
    var sp := v.SpecialTokens();
    assert forall i, j :: 0 <= i < j < 4 ==> sp[i][1] != sp[j][1];
    SizeOfDistinctVocab(v, lines);
  }

  /** Lines "cat" and "dog": ids 4 and 5, "fish" falls back to 3, id 0 is the
      padding token, six tokens in all. */
  method CatDogExample() returns (cat: Nested<int>, dog: Nested<int>, fish: Nested<int>,
                                  zero: Nested<string>, size: nat)
    ensures cat == Leaf(4) && dog == Leaf(5) && fish == Leaf(3)
    ensures zero == Leaf("<PAD>") && size == 6
  {
    var lines := ["cat", "dog"];
    CatDogLines();
    var r := NewVocab(lines, DefaultSpecials);
    var v := r.value;
    CatDogIds(v);
    CatDogFallbacks(v);
    CatDogSize(v);
    cat := v.MapTokensToIds(Leaf("cat"));
    dog := v.MapTokensToIds(Leaf("dog"));
    fish := v.MapTokensToIds(Leaf("fish"));
    zero := v.MapIdsToTokens(Leaf(0));
    size := v.Size();
  }

  /** Lines holding both "<UNK>" and "<EOS>" are rejected on the
      end-of-sequence token, which is checked first, whatever the line order. */
  method RejectionExample() returns (r: Result<Vocab>)
    ensures r == Err(SpecialTokenExists(Eos, "<EOS>"))
  {
    var lines := ["<UNK>", "<EOS>"];
    assert DefaultSpecials.Of(Eos) in lines;
    r := NewVocab(lines, DefaultSpecials);
    assert DefaultSpecials.Of(Bos) !in lines by {
      assert lines[0][1] != 'B' && lines[1][1] != 'B';
    }
    assert r.error.role != Pad by {
      assert lines[0][1] != 'P' && lines[1][1] != 'P';
    }
  }
}
