/**
 * The mood evaluator of src/utils/responses.ts: the glyph catalog, the four
 * response lists and `getResponse`, which scores a dialed sequence, picks a
 * category by a fixed priority chain and returns one string of that category.
 */
module Responses {
  import opened Wrappers

  /** The type of a catalog glyph; the same four names key the response lists. */
  datatype EmojiType = Positive | Negative | Neutral | Chaotic

  datatype EmojiDef = EmojiDef(glyph: string, kind: EmojiType, name: string)

  /** The nine dialable glyphs, in slot order. */
  const EMOJIS: seq<EmojiDef> := [
    EmojiDef("\U{1F642}", Positive, "Smile"),
    EmojiDef("\U{1F614}", Negative, "Pensive"),
    EmojiDef("\U{1F624}", Negative, "Frustrated"),
    EmojiDef("\U{1F635}\U{200D}\U{1F4AB}", Chaotic, "Dizzy"),
    EmojiDef("\U{1F634}", Neutral, "Sleepy"),
    EmojiDef("\U{2728}", Positive, "Sparkles"),
    EmojiDef("\U{1F327}\U{FE0F}", Negative, "Rain"),
    EmojiDef("\U{1F525}", Positive, "Fire"),
    EmojiDef("\U{1F4AD}", Neutral, "Thought")
  ]

  /** The answer to an empty dial. */
  const SILENT: string := "The line is silent..."

  /** The fixed response list of each category. */
  const POSITIVE_RESPONSES: seq<string> := [
    "That spark in your eye? The whole room can feel it.",
    "Some nights just hit different. This is one of the good ones.",
    "You're glowing brighter than the neon outside.",
    "Keep that fire burning. It looks good on you.",
    "The universe is winking back at you tonight.",
    "Savor this feeling like the last sip of good coffee."
  ]

  const NEGATIVE_RESPONSES: seq<string> := [
    "The best conversations happen after midnight. Your feelings are valid.",
    "Every storm runs out of rain. Sit with it a while longer.",
    "The diner stays open all night. You don't have to figure it out right now.",
    "It's okay to not be okay. The stars shine brightest in the dark.",
    "Let it rain. Flowers need water to grow tomorrow.",
    "Heavy hearts make for deep roots. You're stronger than you know."
  ]

  const NEUTRAL_RESPONSES: seq<string> := [
    "Life's a late-night playlist \U{2014} some tracks hit hard, some make you dance.",
    "The best stories have a little rain and a little fire.",
    "Drifting is just another way of moving forward.",
    "Sometimes the best answer is just a comfortable silence.",
    "You're right where you need to be. Just breathe."
  ]

  const CHAOTIC_RESPONSES: seq<string> := [
    "The jukebox is playing your song, even if you can't quite hear it yet.",
    "Chaos is just order waiting to be understood.",
    "Spin the wheel again. The night is still young.",
    "Everything is spinning, but your feet are on the ground."
  ]

  function Options(category: EmojiType): (options: seq<string>)
    ensures |options| >= 4
  {
    match category
    case Positive => POSITIVE_RESPONSES
    case Negative => NEGATIVE_RESPONSES
    case Neutral => NEUTRAL_RESPONSES
    case Chaotic => CHAOTIC_RESPONSES
  }

  /** No two entries of the catalog share a glyph. */
  predicate CharsDistinct(catalog: seq<EmojiDef>) {
    forall i, j :: 0 <= i < j < |catalog| ==> catalog[i].glyph != catalog[j].glyph
  }

  /** `Array.prototype.find` on the glyph: the first entry whose glyph is `c`. */
  function Find(catalog: seq<EmojiDef>, c: string): (d: Option<EmojiDef>)
  {
    if catalog == [] then None
    else if catalog[0].glyph == c then Some(catalog[0])
    else Find(catalog[1..], c)
  }

  /** The type of a glyph, or None for a glyph the catalog does not hold. */
  function KindOf(c: string): Option<EmojiType> {
    match Find(EMOJIS, c)
    case None => None
    case Some(def) => Some(def.kind)
  }

  /** 1 when the catalog classifies glyph `c` as `kind`, else 0. */
  function Hit(c: string, kind: EmojiType): nat {
    if KindOf(c) == Some(kind) then 1 else 0
  }

  /** How many glyphs of `s` the catalog classifies as `kind`. */
  function CountOf(s: seq<string>, kind: EmojiType): nat {
    if s == [] then 0 else CountOf(s[..|s| - 1], kind) + Hit(s[|s| - 1], kind)
  }

  /** What one glyph adds to the score. */
  function Weight(kind: Option<EmojiType>): int {
    if kind == Some(Positive) then 1 else if kind == Some(Negative) then -1 else 0
  }

  /** Positives minus negatives. */
  function Score(s: seq<string>): int {
    CountOf(s, Positive) - CountOf(s, Negative)
  }

  function ChaoticCount(s: seq<string>): nat {
    CountOf(s, Chaotic)
  }

  /** The priority chain that turns the two tallies into a category. */
  function SelectCategory(score: int, chaoticCount: nat): EmojiType {
    if chaoticCount >= 2 then Chaotic
    else if score > 1 then Positive
    else if score < -1 then Negative
    else Neutral
  }

  function Category(s: seq<string>): EmojiType {
    SelectCategory(Score(s), ChaoticCount(s))
  }

  /** An injected pick is usable for `s`: any pick for the empty dial, an index into the list otherwise. */
  predicate PickFits(s: seq<string>, pick: nat) {
    s == [] || pick < |Options(Category(s))|
  }

  /** What `getResponse` answers when its random draw selects index `pick`. */
  function Respond(s: seq<string>, pick: nat): (r: string)
    requires PickFits(s, pick)
    ensures s == [] ==> r == SILENT
    ensures s != [] ==> r in Options(Category(s))
  {
    if s == [] then SILENT else Options(Category(s))[pick]
  }

  /**
   * `getResponse`: one pass over the dialed glyphs keeps the running score and
   * chaotic count, an if-chain picks the category, and `pick` stands for
   * `Math.floor(Math.random() * options.length)`.
   */
  method GetResponse(dialedEmojis: seq<string>, pick: nat) returns (r: string)
    requires PickFits(dialedEmojis, pick)
    ensures r == Respond(dialedEmojis, pick)
    ensures dialedEmojis == [] ==> r == SILENT
    ensures dialedEmojis != [] ==> r in Options(Category(dialedEmojis))
  {
    if |dialedEmojis| == 0 {
      return SILENT;
    }
    var score: int := 0;
    var chaoticCount: nat := 0;
    var k := 0;
    while k < |dialedEmojis|
      invariant k <= |dialedEmojis|
      invariant score == Score(dialedEmojis[..k])
      invariant chaoticCount == ChaoticCount(dialedEmojis[..k])
    {
      var def := Find(EMOJIS, dialedEmojis[k]);
      TallyStep(dialedEmojis, k, def);
      if def.Some? {
        if def.value.kind == Positive { score := score + 1; }
        if def.value.kind == Negative { score := score - 1; }
        if def.value.kind == Chaotic { chaoticCount := chaoticCount + 1; }
      }
      k := k + 1;
    }
    assert dialedEmojis[..k] == dialedEmojis;
    var category := Neutral;
    if chaoticCount >= 2 {
      category := Chaotic;
    } else if score > 1 {
      category := Positive;
    } else if score < -1 {
      category := Negative;
    } else {
      category := Neutral;
    }
    var options := Options(category);
    r := options[pick];
  }

  /** Extending a prefix by one glyph moves the tallies by that glyph's type. */
  lemma TallyStep(s: seq<string>, k: nat, def: Option<EmojiDef>)
    requires k < |s| && def == Find(EMOJIS, s[k])
    ensures Score(s[..k + 1]) == Score(s[..k]) + (if def.Some? then Weight(Some(def.value.kind)) else 0)
    ensures ChaoticCount(s[..k + 1]) == ChaoticCount(s[..k]) + (if def.Some? && def.value.kind == Chaotic then 1 else 0)
  {
    assert s[..k + 1][..k] == s[..k];
  }

  /**
   * `Find` answers the first entry with glyph `c`, and None exactly when no
   * entry has that glyph.
   */
  lemma {:induction false} FindSpec(catalog: seq<EmojiDef>, c: string)
    ensures Find(catalog, c).None? <==> forall i :: 0 <= i < |catalog| ==> catalog[i].glyph != c
    ensures Find(catalog, c).Some? ==>
      exists i :: 0 <= i < |catalog| && catalog[i] == Find(catalog, c).value && catalog[i].glyph == c &&
                  forall j :: 0 <= j < i ==> catalog[j].glyph != c
  {
    if catalog != [] && catalog[0].glyph != c {
      FindSpec(catalog[1..], c);
      if Find(catalog, c).Some? {
        var i :| 0 <= i < |catalog[1..]| && catalog[1..][i] == Find(catalog, c).value && catalog[1..][i].glyph == c &&
                 forall j :: 0 <= j < i ==> catalog[1..][j].glyph != c;
        assert catalog[i + 1] == catalog[1..][i];
        assert forall j :: 0 <= j < i + 1 ==> catalog[j].glyph != c by {
          forall j | 0 <= j < i + 1 ensures catalog[j].glyph != c {
            if j > 0 { assert catalog[j] == catalog[1..][j - 1]; }
          }
        }
      } else {
        forall i | 0 <= i < |catalog| ensures catalog[i].glyph != c {
          if i > 0 { assert catalog[i] == catalog[1..][i - 1]; }
        }
      }
    } else if catalog != [] {
      assert catalog[0] == Find(catalog, c).value;
    }
  }

  /** In a catalog with distinct glyphs, looking up an entry's glyph finds that entry. */
  lemma {:induction false} FindResolvesEntry(catalog: seq<EmojiDef>, i: nat)
    requires CharsDistinct(catalog)
    requires i < |catalog|
    ensures Find(catalog, catalog[i].glyph) == Some(catalog[i])
  {
    if i > 0 {
      assert catalog[0].glyph != catalog[i].glyph;
      assert catalog[1..][i - 1] == catalog[i];
      FindResolvesEntry(catalog[1..], i - 1);
    }
  }

  lemma CatalogCharsDistinct()
    ensures |EMOJIS| == 9
    ensures CharsDistinct(EMOJIS)
  {
  }

  /** Every catalog glyph resolves to its own entry's type. */
  lemma KindOfCatalogGlyph(i: nat)
    requires i < |EMOJIS|
    ensures KindOf(EMOJIS[i].glyph) == Some(EMOJIS[i].kind)
  {
    CatalogCharsDistinct();
    FindResolvesEntry(EMOJIS, i);
  }

  /** Counting distributes over concatenation. */
  lemma {:induction false} CountAppend(s: seq<string>, t: seq<string>, kind: EmojiType)
    ensures CountOf(s + t, kind) == CountOf(s, kind) + CountOf(t, kind)
    decreases |t|
  {
    if t != [] {
      var t' := t[..|t| - 1];
      assert (s + t)[..|s + t| - 1] == s + t';
      assert (s + t)[|s + t| - 1] == t[|t| - 1];
      CountAppend(s, t', kind);
    } else {
      assert s + t == s;
    }
  }

  /** Taking one glyph out of a dial takes its contribution out of the tally. */
  lemma CountRemove(t: seq<string>, j: nat, kind: EmojiType)
    requires j < |t|
    ensures CountOf(t, kind) == CountOf(t[..j] + t[j + 1..], kind) + CountOf([t[j]], kind)
  {
    assert t == (t[..j] + [t[j]]) + t[j + 1..];
    CountAppend(t[..j] + [t[j]], t[j + 1..], kind);
    CountAppend(t[..j], [t[j]], kind);
    CountAppend(t[..j], t[j + 1..], kind);
  }

  /** The tallies depend only on which glyphs were dialed, not on their order. */
  lemma {:induction false} CountPermutation(s: seq<string>, t: seq<string>, kind: EmojiType)
    requires multiset(s) == multiset(t)
    ensures CountOf(s, kind) == CountOf(t, kind)
    decreases |s|
  {
    if s != [] {
      var x := s[|s| - 1];
      var s' := s[..|s| - 1];
      assert s == s' + [x];
      assert x in multiset(t);
      var j :| 0 <= j < |t| && t[j] == x;
      var t' := t[..j] + t[j + 1..];
      assert t == t[..j] + [x] + t[j + 1..];
      assert multiset(t') == multiset(t) - multiset{x};
      assert multiset(s') == multiset(s) - multiset{x};
      CountPermutation(s', t', kind);
      CountRemove(t, j, kind);
      CountAppend(s', [x], kind);
    } else {
      assert t == [];
    }
  }

  /** The category of a dial is the same whatever the order of its glyphs. */
  lemma CategoryOrderIndependent(s: seq<string>, t: seq<string>)
    requires multiset(s) == multiset(t)
    ensures Score(s) == Score(t) && ChaoticCount(s) == ChaoticCount(t)
    ensures Category(s) == Category(t)
  {
    CountPermutation(s, t, Positive);
    CountPermutation(s, t, Negative);
    CountPermutation(s, t, Chaotic);
  }

  /** Glyphs outside the catalog are skipped: they add to no tally. */
  lemma {:induction false} UnknownGlyphsCountNothing(s: seq<string>, kind: EmojiType)
    requires forall k :: 0 <= k < |s| ==> KindOf(s[k]) == None
    ensures CountOf(s, kind) == 0
  {
    if s != [] {
      UnknownGlyphsCountNothing(s[..|s| - 1], kind);
    }
  }

  /** A non-empty dial of unknown glyphs only is answered from the neutral list. */
  lemma UnknownOnlyIsNeutral(s: seq<string>, pick: nat)
    requires s != []
    requires forall k :: 0 <= k < |s| ==> KindOf(s[k]) == None
    requires pick < |Options(Neutral)|
    ensures Score(s) == 0 && ChaoticCount(s) == 0
    ensures Category(s) == Neutral
    ensures Respond(s, pick) == Options(Neutral)[pick]
  {
    UnknownGlyphsCountNothing(s, Positive);
    UnknownGlyphsCountNothing(s, Negative);
    UnknownGlyphsCountNothing(s, Chaotic);
  }

  /** Appending one glyph moves exactly the tally of its type, by one. */
  lemma CountStep(s: seq<string>, c: string, kind: EmojiType)
    ensures CountOf(s + [c], kind) == CountOf(s, kind) + Hit(c, kind)
  {
  }

  /** A neutral or unknown glyph changes neither the score nor the chaotic count. */
  lemma NeutralAndUnknownContributeNothing(s: seq<string>, c: string)
    requires KindOf(c) == None || KindOf(c) == Some(Neutral)
    ensures Score(s + [c]) == Score(s)
    ensures ChaoticCount(s + [c]) == ChaoticCount(s)
  {
  }

  /**
   * The priority chain in terms of the tallies, each case in both directions:
   * two chaotic glyphs decide the category whatever the score.
   */
  lemma CategoryCases(s: seq<string>)
    ensures Category(s) == Chaotic <==> ChaoticCount(s) >= 2
    ensures Category(s) == Positive <==> ChaoticCount(s) < 2 && Score(s) > 1
    ensures Category(s) == Negative <==> ChaoticCount(s) < 2 && Score(s) < -1
    ensures Category(s) == Neutral <==> ChaoticCount(s) < 2 && -1 <= Score(s) <= 1
  {
  }

  /** The tallies of a dial of two glyphs, glyph by glyph. */
  lemma CountOfPair(a: string, b: string, kind: EmojiType)
    ensures CountOf([a, b], kind) == Hit(a, kind) + Hit(b, kind)
  {
    CountStep([], a, kind);
    assert [] + [a] == [a];
    CountStep([a], b, kind);
    assert [a] + [b] == [a, b];
  }

  /** The tallies of a dial of three glyphs, glyph by glyph. */
  lemma CountOfTriple(a: string, b: string, c: string, kind: EmojiType)
    ensures CountOf([a, b, c], kind) == Hit(a, kind) + Hit(b, kind) + Hit(c, kind)
  {
    CountOfPair(a, b, kind);
    CountStep([a, b], c, kind);
    assert [a, b] + [c] == [a, b, c];
  }

  /** A catalog glyph is a hit for its own type and for no other. */
  lemma CatalogGlyphHits(i: nat, kind: EmojiType)
    requires i < |EMOJIS|
    ensures Hit(EMOJIS[i].glyph, kind) == if kind == EMOJIS[i].kind then 1 else 0
  {
    KindOfCatalogGlyph(i);
  }

  /** Smile, sparkles and fire: score 3, answered from the positive list. */
  lemma ThreePositivesArePositive()
    ensures Score([EMOJIS[0].glyph, EMOJIS[5].glyph, EMOJIS[7].glyph]) == 3
    ensures Category([EMOJIS[0].glyph, EMOJIS[5].glyph, EMOJIS[7].glyph]) == Positive
  {
    CatalogGlyphHits(0, Positive);
    CatalogGlyphHits(5, Positive);
    CatalogGlyphHits(7, Positive);
    CountOfTriple(EMOJIS[0].glyph, EMOJIS[5].glyph, EMOJIS[7].glyph, Positive);
    CatalogGlyphHits(0, Negative);
    CatalogGlyphHits(5, Negative);
    CatalogGlyphHits(7, Negative);
    CountOfTriple(EMOJIS[0].glyph, EMOJIS[5].glyph, EMOJIS[7].glyph, Negative);
    CatalogGlyphHits(0, Chaotic);
    CatalogGlyphHits(5, Chaotic);
    CatalogGlyphHits(7, Chaotic);
    CountOfTriple(EMOJIS[0].glyph, EMOJIS[5].glyph, EMOJIS[7].glyph, Chaotic);
  }

  /** Pensive, frustrated and rain: score -3, answered from the negative list. */
  lemma ThreeNegativesAreNegative()
    ensures Score([EMOJIS[1].glyph, EMOJIS[2].glyph, EMOJIS[6].glyph]) == -3
    ensures Category([EMOJIS[1].glyph, EMOJIS[2].glyph, EMOJIS[6].glyph]) == Negative
  {
    CatalogGlyphHits(1, Positive);
    CatalogGlyphHits(2, Positive);
    CatalogGlyphHits(6, Positive);
    CountOfTriple(EMOJIS[1].glyph, EMOJIS[2].glyph, EMOJIS[6].glyph, Positive);
    CatalogGlyphHits(1, Negative);
    CatalogGlyphHits(2, Negative);
    CatalogGlyphHits(6, Negative);
    CountOfTriple(EMOJIS[1].glyph, EMOJIS[2].glyph, EMOJIS[6].glyph, Negative);
    CatalogGlyphHits(1, Chaotic);
    CatalogGlyphHits(2, Chaotic);
    CatalogGlyphHits(6, Chaotic);
    CountOfTriple(EMOJIS[1].glyph, EMOJIS[2].glyph, EMOJIS[6].glyph, Chaotic);
  }

  /** Two dizzy faces beside a smile: chaotic, whatever the smile adds. */
  lemma TwoDizzyFacesAreChaotic()
    ensures ChaoticCount([EMOJIS[3].glyph, EMOJIS[3].glyph, EMOJIS[0].glyph]) == 2
    ensures Category([EMOJIS[3].glyph, EMOJIS[3].glyph, EMOJIS[0].glyph]) == Chaotic
  {
    CatalogGlyphHits(3, Chaotic);
    CatalogGlyphHits(0, Chaotic);
    CountOfTriple(EMOJIS[3].glyph, EMOJIS[3].glyph, EMOJIS[0].glyph, Chaotic);
  }

  /** Sleepy and thought: score 0, answered from the neutral list. */
  lemma TwoNeutralsAreNeutral()
    ensures Score([EMOJIS[4].glyph, EMOJIS[8].glyph]) == 0
    ensures Category([EMOJIS[4].glyph, EMOJIS[8].glyph]) == Neutral
  {
    CatalogGlyphHits(4, Positive);
    CatalogGlyphHits(8, Positive);
    CountOfPair(EMOJIS[4].glyph, EMOJIS[8].glyph, Positive);
    CatalogGlyphHits(4, Negative);
    CatalogGlyphHits(8, Negative);
    CountOfPair(EMOJIS[4].glyph, EMOJIS[8].glyph, Negative);
    CatalogGlyphHits(4, Chaotic);
    CatalogGlyphHits(8, Chaotic);
    CountOfPair(EMOJIS[4].glyph, EMOJIS[8].glyph, Chaotic);
  }
}
