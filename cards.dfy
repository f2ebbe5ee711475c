/** One face of a split or adventure card (CardData.cs): its canonical colour string, its
    display name, the four override flags that compare it with its sibling face, the two
    guarded corrections and the validation check.

    Every face lives in a `FacePool`: faces are stored in pairs, the front at an even index
    and its back right after it, and a face refers to its sibling by index. */
module Cards {
  import Wrappers
  import Text

  datatype CardFace = Front | Back

  datatype CardLayout = Split | Adventure | None

  /** The render template a face is drawn with. */
  datatype CardTemplate = M15 | Sketch | DoubleFeature

  /** The fields of a CardData object. `otherFace` is the index of the sibling face in the
      pool that owns both. */
  datatype Card = Card(
    name: string,
    displayName: string,
    color: string,
    colorCount: nat,
    artFileName: string,
    artist: string,
    manualArtist: bool,
    face: CardFace,
    layout: CardLayout,
    template: CardTemplate,
    watermark: string,
    otherFace: nat)

  // ---------------------------------------------------------------------------------------
  // Colour
  // ---------------------------------------------------------------------------------------

  /** The colour symbols, in the order in which they are collected. */
  const ColorSymbols: string := "WUBRG"

  /** The position of a colour symbol in `ColorSymbols`; 5 for any other character. */
  function Rank(c: char): nat {
    if c == 'W' then 0
    else if c == 'U' then 1
    else if c == 'B' then 2
    else if c == 'R' then 3
    else if c == 'G' then 4
    else 5
  }

  lemma {:induction false} RankOfSymbol(k: nat)
    requires k < |ColorSymbols|
    ensures Rank(ColorSymbols[k]) == k && 'A' <= ColorSymbols[k] <= 'Z'
  {
    assert ColorSymbols == ['W', 'U', 'B', 'R', 'G'];
  }

  /** Colour symbols only, each at most once, in collection order. */
  predicate Ascending(c: string) {
    (forall i :: 0 <= i < |c| ==> Rank(c[i]) < |ColorSymbols|)
    && forall i, j :: 0 <= i < j < |c| ==> Rank(c[i]) < Rank(c[j])
  }

  /** The strings a face's colour can be: ascending but none of the pairs that are
      reordered, or one of the three reordered pairs. */
  predicate CanonicalColor(c: string) {
    (Ascending(c) && c != "UG" && c != "WG" && c != "WR") || c == "GU" || c == "GW" || c == "RW"
  }

  /** The symbols among the first `k` of `ColorSymbols` that occur in `m`, in that order. */
  function Collected(m: string, k: nat): (r: string)
    requires k <= |ColorSymbols|
    ensures forall i :: 0 <= i < |r| ==> Rank(r[i]) < k && r[i] in m
    ensures forall i, j :: 0 <= i < j < |r| ==> Rank(r[i]) < Rank(r[j])
  {
    if k == 0 then ""
    else
      RankOfSymbol(k - 1);
      Collected(m, k - 1) + (if ColorSymbols[k - 1] in m then [ColorSymbols[k - 1]] else "")
  }

  /** A colour symbol is collected exactly when it is among the first `k` and occurs. */
  lemma {:induction false} InCollected(m: string, k: nat, c: char)
    requires k <= |ColorSymbols| && Rank(c) < |ColorSymbols|
    ensures c in Collected(m, k) <==> Rank(c) < k && c in m
  {
    if k > 0 {
      InCollected(m, k - 1, c);
      RankOfSymbol(k - 1);
      var pre := Collected(m, k - 1);
      var add: string := if ColorSymbols[k - 1] in m then [ColorSymbols[k - 1]] else "";
      assert Collected(m, k) == pre + add;
      assert c in pre + add <==> c in pre || c in add;
      assert Rank(c) == k - 1 ==> c == ColorSymbols[k - 1];
    }
  }

  /** CorrectColorOrder (CardData.cs): three two-colour pairs are reordered so that the
      renderer recognises them; every other string is kept. */
  function CorrectColorOrder(color: string): (r: string)
    ensures multiset(r) == multiset(color)
    ensures color == "UG" ==> r == "GU"
    ensures color == "WG" ==> r == "GW"
    ensures color == "WR" ==> r == "RW"
    ensures r != color ==> color == "UG" || color == "WG" || color == "WR"
  {
    if color == "UG" then "GU"
    else if color == "WG" then "GW"
    else if color == "WR" then "RW"
    else color
  }

  /** Reordering keeps the symbols. */
  lemma {:induction false} CorrectColorOrderMembers(color: string, x: char)
    ensures x in CorrectColorOrder(color) <==> x in color
  {
    var r := CorrectColorOrder(color);
    assert x in r <==> x in multiset(r);
    assert x in color <==> x in multiset(color);
  }

  /** Reordering twice is reordering once. */
  lemma {:induction false} CorrectColorOrderIdempotent(color: string)
    ensures CorrectColorOrder(CorrectColorOrder(color)) == CorrectColorOrder(color)
  {
  }

  /** The colour GetColorData assigns for a mana cost. */
  function ColorOf(manaCost: string): string {
    CorrectColorOrder(Collected(Text.ToUpper(manaCost), |ColorSymbols|))
  }

  /** GetColorData (CardData.cs): the colour symbols that occur in the upper-cased mana cost
      are collected in `WUBRG` order, the result is reordered, and the count is its length. */
  method GetColorData(manaCost: string) returns (color: string, colorCount: nat)
    ensures color == ColorOf(manaCost) && colorCount == |color|
    ensures CanonicalColor(color)
  {
    var upper := Text.ToUpper(manaCost);
    color := "";
    for k := 0 to |ColorSymbols|
      invariant color == Collected(upper, k)
    {
      if ColorSymbols[k] in upper {
        color := color + [ColorSymbols[k]];
      }
    }
    color := CorrectColorOrder(color);
    colorCount := |color|;
    ColorOfCanonical(manaCost);
  }

  /** Every colour is canonical: no symbol twice, nothing but symbols, in collection order
      except for the three reordered pairs. */
  lemma {:induction false} ColorOfCanonical(manaCost: string)
    ensures CanonicalColor(ColorOf(manaCost))
  {
    var c := Collected(Text.ToUpper(manaCost), |ColorSymbols|);
    assert Ascending(c);
  }

  /** A symbol is in the colour exactly when the mana cost holds it in either case. */
  lemma {:induction false} InColorOf(manaCost: string, k: nat)
    requires k < |ColorSymbols|
    ensures ColorSymbols[k] in ColorOf(manaCost)
        <==> ColorSymbols[k] in manaCost || Text.LowerChar(ColorSymbols[k]) in manaCost
  {
    var c := ColorSymbols[k];
    RankOfSymbol(k);
    var upper := Text.ToUpper(manaCost);
    InCollected(upper, |ColorSymbols|, c);
    CorrectColorOrderMembers(Collected(upper, |ColorSymbols|), c);
    Text.InToUpper(manaCost, c);
  }

  /** Two mana costs hold the same colour symbols, ignoring case. */
  predicate SameSymbols(m1: string, m2: string) {
    forall k :: 0 <= k < |ColorSymbols| ==>
      ((ColorSymbols[k] in m1 || Text.LowerChar(ColorSymbols[k]) in m1)
       <==> (ColorSymbols[k] in m2 || Text.LowerChar(ColorSymbols[k]) in m2))
  }

  /** The colour depends only on which symbols occur, in either case: their position and
      repetition do not matter. */
  lemma {:induction false} ColorDependsOnlyOnSymbols(m1: string, m2: string)
    requires SameSymbols(m1, m2)
    ensures ColorOf(m1) == ColorOf(m2)
  {
    var u1, u2 := Text.ToUpper(m1), Text.ToUpper(m2);
    forall k | 0 <= k < |ColorSymbols|
      ensures ColorSymbols[k] in u1 <==> ColorSymbols[k] in u2
    {
      Text.InToUpper(m1, ColorSymbols[k]);
      Text.InToUpper(m2, ColorSymbols[k]);
    }
    CollectedSame(u1, u2, |ColorSymbols|);
  }

  lemma {:induction false} CollectedSame(u1: string, u2: string, k: nat)
    requires k <= |ColorSymbols|
    requires forall j :: 0 <= j < k ==> (ColorSymbols[j] in u1 <==> ColorSymbols[j] in u2)
    ensures Collected(u1, k) == Collected(u2, k)
  {
    if k > 0 {
      CollectedSame(u1, u2, k - 1);
    }
  }

  /** A colour string, read as a mana cost, gives itself back. */
  lemma {:induction false} ColorOfIdempotent(manaCost: string)
    ensures ColorOf(ColorOf(manaCost)) == ColorOf(manaCost)
  {
    var c := ColorOf(manaCost);
    ColorOfSymbolsOnly(manaCost);
    forall k | 0 <= k < |ColorSymbols|
      ensures (ColorSymbols[k] in c || Text.LowerChar(ColorSymbols[k]) in c)
          <==> (ColorSymbols[k] in manaCost || Text.LowerChar(ColorSymbols[k]) in manaCost)
    {
      InColorOf(manaCost, k);
      NoLowerInColor(c, k);
    }
    ColorDependsOnlyOnSymbols(c, manaCost);
  }

  /** A colour holds nothing but colour symbols. */
  lemma {:induction false} ColorOfSymbolsOnly(manaCost: string)
    ensures forall i :: 0 <= i < |ColorOf(manaCost)| ==> Rank(ColorOf(manaCost)[i]) < |ColorSymbols|
  {
    ColorOfCanonical(manaCost);
  }

  lemma {:induction false} NoLowerInColor(c: string, k: nat)
    requires k < |ColorSymbols|
    requires forall i :: 0 <= i < |c| ==> Rank(c[i]) < |ColorSymbols|
    ensures Text.LowerChar(ColorSymbols[k]) !in c
  {
    var lower := Text.LowerChar(ColorSymbols[k]);
    assert Rank(lower) == |ColorSymbols|;
    forall i | 0 <= i < |c| ensures c[i] != lower {
    }
  }

  /** GetColorData as written: the colour starts out null, each symbol found is appended to
      it, and the count reads its length. When no symbol occurs the colour is still null and
      reading its length fails; that failure is `None`. */
  function ColorCountAsWritten(manaCost: string): (r: Wrappers.Option<nat>)
    ensures r.Some? ==> r.value == |ColorOf(manaCost)|
  {
    var found := NullStartCollect(Text.ToUpper(manaCost), |ColorSymbols|);
    match found
    case None => Wrappers.None
    case Some(c) => Wrappers.Some(|CorrectColorOrder(c)|)
  }

  /** The colour accumulated from a null start: null until the first symbol is found. */
  function NullStartCollect(m: string, k: nat): (r: Wrappers.Option<string>)
    requires k <= |ColorSymbols|
    ensures r == (if Collected(m, k) == "" then Wrappers.None else Wrappers.Some(Collected(m, k)))
  {
    if k == 0 then Wrappers.None
    else
      var pre := NullStartCollect(m, k - 1);
      if ColorSymbols[k - 1] in m then Wrappers.Some(pre.GetOr("") + [ColorSymbols[k - 1]])
      else
        assert Collected(m, k) == Collected(m, k - 1) + "";
        assert Collected(m, k - 1) + "" == Collected(m, k - 1);
        pre
  }

  /** A colourless mana cost makes GetColorData as written fail, while the corrected
      version gives the empty colour with count 0. */
  lemma {:induction false} ColorlessCostFails()
    ensures ColorCountAsWritten("{3}") == Wrappers.None
    ensures ColorOf("{3}") == "" && |ColorOf("{3}")| == 0
  {
    assert Text.ToUpper("{3}") == "{3}";
    CollectedNone("{3}", |ColorSymbols|);
  }

  lemma {:induction false} CollectedNone(m: string, k: nat)
    requires k <= |ColorSymbols|
    requires forall j :: 0 <= j < |ColorSymbols| ==> ColorSymbols[j] !in m
    ensures Collected(m, k) == ""
  {
    if k > 0 {
      CollectedNone(m, k - 1);
    }
  }

  /** GetColorData as written fails exactly for mana costs without any colour symbol. */
  lemma {:induction false} AsWrittenFailsIffColorless(manaCost: string)
    ensures ColorCountAsWritten(manaCost).None? <==> ColorOf(manaCost) == ""
  {
    assert |ColorOf(manaCost)| == |Collected(Text.ToUpper(manaCost), |ColorSymbols|)| by {
      assert multiset(ColorOf(manaCost)) == multiset(Collected(Text.ToUpper(manaCost), |ColorSymbols|));
    }
  }

  // ---------------------------------------------------------------------------------------
  // Display name
  // ---------------------------------------------------------------------------------------

  /** The separator between the two halves of a dual card name. */
  const NameSeparator: string := " // "

  /** The display name of a face: the trimmed first segment of the name for a front face,
      the trimmed last segment for a back face. */
  function DisplayNameOf(name: string, face: CardFace): string {
    var parts := Text.Split(name, NameSeparator);
    if face == Front then Text.Trim(parts[0]) else Text.Trim(parts[|parts| - 1])
  }

  /** For a dual name "A // B" whose halves hold no '/', the front shows A and the back B. */
  lemma {:induction false} DisplayNameOfDual(a: string, b: string)
    requires '/' !in a && '/' !in b
    ensures DisplayNameOf(a + NameSeparator + b, Front) == Text.Trim(a)
    ensures DisplayNameOf(a + NameSeparator + b, Back) == Text.Trim(b)
  {
    var parts := [a, b];
    assert Text.Join(parts, NameSeparator) == a + NameSeparator + b by {
      assert parts[1..] == [b];
    }
    Text.SplitJoin(parts, NameSeparator, '/');
  }

  /** A name without the separator is the display name of both faces, once trimmed. */
  lemma {:induction false} DisplayNameOfSingle(name: string, face: CardFace)
    requires !Text.Contains(name, NameSeparator)
    ensures DisplayNameOf(name, face) == Text.Trim(name)
  {
    assert Text.Split(name, NameSeparator) == [name];
  }

  // ---------------------------------------------------------------------------------------
  // Construction, override flags and validation
  // ---------------------------------------------------------------------------------------

  /** The CardData constructor: the display name comes from the name and the face, the colour
      and its count from the mana cost; the artist is not yet manually corrected. The sibling
      index is set when the pair is added to a pool. */
  method NewCard(name: string, manaCost: string, art: string, artist: string, face: CardFace,
                 layout: CardLayout, template: CardTemplate, watermark: string)
    returns (c: Card)
    ensures c.name == name && c.displayName == DisplayNameOf(name, face)
    ensures c.color == ColorOf(manaCost) && c.colorCount == |c.color|
    ensures c.artFileName == art && c.artist == artist && !c.manualArtist
    ensures c.face == face && c.layout == layout && c.template == template
    ensures c.watermark == watermark && c.otherFace == 0
  {
    var color, colorCount := GetColorData(manaCost);
    c := Card(name, DisplayNameOf(name, face), color, colorCount, art, artist, false, face,
              layout, template, watermark, 0);
  }

  /** The faces differ in colour; either face of the pair decides the same. */
  function NeedsColorOverride(c: Card, other: Card): (r: bool)
    ensures r <==> other.color != c.color
    ensures !r ==> multiset(c.color) == multiset(other.color)
  {
    c.color != other.color
  }

  /** Back faces and both faces of split cards are drawn with separately supplied art; only
      the front face of a card that is not split uses the renderer's own art. */
  function NeedsArtOverride(c: Card): (r: bool)
    ensures !r <==> c.face == Front && c.layout != Split
  {
    c.face == Back || c.layout == Split
  }

  /** The faces differ in artist, or the artist was corrected by hand. */
  function NeedsArtistOverride(c: Card, other: Card): (r: bool)
    ensures c.manualArtist ==> r
    ensures !c.manualArtist ==> (r <==> other.artist != c.artist)
  {
    c.artist != other.artist || c.manualArtist
  }

  /** Either face carries a watermark: exactly when the face has one once the sibling's
      has been copied onto it. */
  function NeedsWatermarkOverride(c: Card, other: Card): (r: bool)
    ensures r <==> CorrectedWatermark(c, other) != ""
  {
    c.watermark != "" || other.watermark != ""
  }

  /** ValidateCard (CardData.cs): the checks in the order the source makes them. A face is
      valid exactly when it has a name and every override it needs has its data, so the
      order of the checks does not matter. */
  function ValidateCard(c: Card, other: Card): (ok: bool)
    ensures ok <==>
      c.name != ""
      && (NeedsColorOverride(c, other) ==> |c.color| == c.colorCount)
      && (NeedsWatermarkOverride(c, other) ==> c.watermark != "")
      && (NeedsArtistOverride(c, other) ==> c.artist != "")
      && (NeedsArtOverride(c) ==> c.artFileName != "")
  {
    if c.name == "" then false
    else if NeedsColorOverride(c, other) && |c.color| != c.colorCount then false
    else if NeedsWatermarkOverride(c, other) && c.watermark == "" then false
    else if NeedsArtistOverride(c, other) && c.artist == "" then false
    else if NeedsArtOverride(c) && c.artFileName == "" then false
    else true
  }

  /** On a face whose count matches its colour (every constructed face), validation fails
      exactly when the name is empty or an override is needed whose data is missing; the
      colour check never fires. */
  lemma {:induction false} ValidateCardIff(c: Card, other: Card)
    requires c.colorCount == |c.color|
    ensures ValidateCard(c, other) <==>
      c.name != ""
      && (c.watermark != "" || other.watermark == "")
      && (c.artist != "" || (other.artist == "" && !c.manualArtist))
      && (c.artFileName != "" || (c.face == Front && c.layout != Split))
  {
  }

  /** The new watermark of `c` after CorrectWatermark: the sibling's when its own is empty
      and the sibling's is not. */
  function CorrectedWatermark(c: Card, other: Card): (w: string)
    ensures w != "" || other.watermark == ""
    ensures c.watermark != "" ==> w == c.watermark
    ensures c.watermark == "" ==> w == other.watermark
  {
    if c.watermark == "" && other.watermark != "" then other.watermark else c.watermark
  }

  /** Correcting twice is correcting once. */
  lemma {:induction false} CorrectedWatermarkIdempotent(c: Card, other: Card)
    ensures CorrectedWatermark(c.(watermark := CorrectedWatermark(c, other)), other)
         == CorrectedWatermark(c, other)
  {
  }

  /** Correcting the front and then the back leaves no face that needs a watermark without
      having one, so the watermark check of validation passes on both. */
  lemma {:induction false} BackfillSatisfiesWatermarkCheck(front: Card, back: Card)
    ensures var f := front.(watermark := CorrectedWatermark(front, back));
            var b := back.(watermark := CorrectedWatermark(back, f));
            NeedsWatermarkOverride(f, b) ==> f.watermark != "" && b.watermark != ""
  {
  }

  // ---------------------------------------------------------------------------------------
  // The pool of faces
  // ---------------------------------------------------------------------------------------

  /** The index of the other face of the pair that index `i` belongs to. */
  function Sibling(i: nat): nat {
    if i % 2 == 0 then i + 1 else i - 1
  }

  /** Faces come in pairs that point at each other, fronts first, and every colour count
      matches its colour. */
  predicate PoolWellFormed(faces: seq<Card>) {
    |faces| % 2 == 0
    && forall i :: 0 <= i < |faces| ==>
         faces[i].otherFace == Sibling(i)
         && faces[i].colorCount == |faces[i].color|
         && (faces[i].face == Front <==> i % 2 == 0)
  }

  /** In a well-formed pool the sibling of a face's sibling is the face, so the colour and
      watermark flags have the same value on both faces of a pair. */
  lemma {:induction false} SiblingFlagsAgree(faces: seq<Card>, i: nat)
    requires PoolWellFormed(faces) && i < |faces|
    ensures Sibling(i) < |faces| && faces[Sibling(i)].otherFace == i
    ensures NeedsColorOverride(faces[i], faces[Sibling(i)])
        == NeedsColorOverride(faces[Sibling(i)], faces[i])
    ensures NeedsWatermarkOverride(faces[i], faces[Sibling(i)])
        == NeedsWatermarkOverride(faces[Sibling(i)], faces[i])
  {
  }

  /** Every CardData object built: the two faces of each entry, whether kept or not. */
  class FacePool {
    var faces: seq<Card>

    ghost predicate Valid()
      reads this
    {
      PoolWellFormed(faces)
    }

    constructor ()
      ensures Valid() && faces == []
    {
      faces := [];
    }

    /** The face that `faces[i]` calls its other face. */
    function Other(i: nat): Card
      reads this
      requires Valid() && i < |faces|
    {
      faces[Sibling(i)]
    }

    /** Adds the two faces of one entry, each pointing at the other. */
    method AddPair(front: Card, back: Card) returns (k: nat)
      requires Valid()
      requires front.face == Front && back.face == Back
      requires front.colorCount == |front.color| && back.colorCount == |back.color|
      modifies this
      ensures Valid()
      ensures k == |old(faces)| && k % 2 == 0
      ensures faces == old(faces) + [front.(otherFace := k + 1), back.(otherFace := k)]
    {
      k := |faces|;
      faces := faces + [front.(otherFace := k + 1), back.(otherFace := k)];
    }

    /** CorrectArtist (CardData.cs): the artist is replaced and marked as corrected by hand,
        so the face needs an artist override from now on. */
    method CorrectArtist(i: nat, artist: string)
      requires Valid() && i < |faces|
      modifies this
      ensures Valid()
      ensures faces == WithArtist(old(faces), i, artist)
      ensures NeedsArtistOverride(faces[i], Other(i))
    {
      faces := faces[i := faces[i].(artist := artist, manualArtist := true)];
    }

    /** CorrectWatermark (CardData.cs): an empty watermark takes the sibling's when that one
        is not empty; anything else is left as it is. */
    method CorrectWatermark(i: nat)
      requires Valid() && i < |faces|
      modifies this
      ensures Valid()
      ensures faces == WithCorrectedWatermark(old(faces), i, Sibling(i))
      ensures faces[i].watermark != "" || Other(i).watermark == ""
    {
      var other := Other(i);
      if faces[i].watermark == "" && other.watermark != "" {
        faces := faces[i := faces[i].(watermark := other.watermark)];
      }
    }

    /** The watermark merge applied to a face already kept when a duplicate of it turns up:
        an empty watermark takes a non-empty one, anything else is left as it is. */
    method AdoptWatermark(i: nat, watermark: string)
      requires Valid() && i < |faces|
      modifies this
      ensures Valid()
      ensures faces == WithWatermark(old(faces), i, watermark)
    {
      if faces[i].watermark == "" && watermark != "" {
        faces := faces[i := faces[i].(watermark := watermark)];
      }
    }
  }

  /** The faces after the artist of face `i` was corrected by hand. */
  function WithArtist(faces: seq<Card>, i: nat, artist: string): seq<Card>
    requires i < |faces|
  {
    faces[i := faces[i].(artist := artist, manualArtist := true)]
  }

  /** The faces after face `i` took `watermark`, if its own was empty. */
  function WithWatermark(faces: seq<Card>, i: nat, watermark: string): (r: seq<Card>)
    requires i < |faces|
    ensures |r| == |faces| && forall j :: 0 <= j < |faces| && j != i ==> r[j] == faces[j]
    ensures r[i] == faces[i].(watermark := r[i].watermark)
    ensures faces[i].watermark == "" ==> r[i].watermark == watermark
    ensures faces[i].watermark != "" ==> r[i].watermark == faces[i].watermark
  {
    var w := if faces[i].watermark == "" && watermark != "" then watermark else faces[i].watermark;
    faces[i := faces[i].(watermark := w)]
  }

  /** The faces after face `i` was given its corrected watermark, face `j` being its sibling. */
  function WithCorrectedWatermark(faces: seq<Card>, i: nat, j: nat): seq<Card>
    requires i < |faces| && j < |faces|
  {
    faces[i := faces[i].(watermark := CorrectedWatermark(faces[i], faces[j]))]
  }
}
