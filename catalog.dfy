/** The catalog filter and the list of faces to render (CardManager.cs): which catalog entries
    are legal, how each legal entry becomes a front and a back face, how a face whose display
    name is already taken is merged instead of added, and how manual artist overrides and
    watermark backfill are applied. */
module Catalog {
  import opened Wrappers
  import Text
  import Cards
  import Configuration

  /** The properties of one face of a catalog entry. A missing property reads as "". */
  datatype FaceEntry = FaceEntry(manaCost: string, artist: string, watermark: string)

  /** The properties of one catalog entry that the filter and the face builder read. A
      missing string property reads as "", a missing `promo` as false; `frameEffects` is
      `None` when the property is absent or not a list; `keywords` is the property's text. */
  datatype CatalogEntry = CatalogEntry(
    name: string,
    layout: string,
    promo: bool,
    frameEffects: Option<seq<string>>,
    setType: string,
    borderColor: string,
    setCode: string,
    keywords: string,
    cardFaces: seq<FaceEntry>)

  // ---------------------------------------------------------------------------------------
  // The filter
  // ---------------------------------------------------------------------------------------

  /** Some configured illegal code occurs in the set code. */
  predicate HasIllegalSetCode(setCode: string, illegalSetCodes: seq<string>) {
    exists i :: 0 <= i < |illegalSetCodes| && Text.Contains(setCode, illegalSetCodes[i])
  }

  /** An entry that passes every filter of the parsing loop. */
  predicate Legal(e: CatalogEntry, illegalSetCodes: seq<string>) {
    (e.layout == "adventure" || e.layout == "split")
    && !e.promo
    && (e.frameEffects.None? || |e.frameEffects.value| == 0)
    && e.setType != "alchemy"
    && e.borderColor == "black"
    && !HasIllegalSetCode(e.setCode, illegalSetCodes)
  }

  /** The scan for an illegal set code, stopping at the first hit. */
  method FindIllegalSetCode(setCode: string, illegalSetCodes: seq<string>) returns (illegal: bool)
    ensures illegal <==> HasIllegalSetCode(setCode, illegalSetCodes)
  {
    illegal := false;
    var i := 0;
    while i < |illegalSetCodes|
      invariant 0 <= i <= |illegalSetCodes|
      invariant !illegal ==> forall j :: 0 <= j < i ==> !Text.Contains(setCode, illegalSetCodes[j])
      invariant illegal ==> HasIllegalSetCode(setCode, illegalSetCodes)
    {
      if Text.Contains(setCode, illegalSetCodes[i]) {
        illegal := true;
        break;
      }
      i := i + 1;
    }
  }

  /** The filter applied to one entry, check by check in the order of the parsing loop. */
  method IsLegalEntry(e: CatalogEntry, illegalSetCodes: seq<string>) returns (legal: bool)
    ensures legal <==> Legal(e, illegalSetCodes)
  {
    if e.layout != "adventure" && e.layout != "split" { return false; }
    if e.promo { return false; }
    if e.frameEffects.Some? && |e.frameEffects.value| > 0 { return false; }
    if e.setType == "alchemy" { return false; }
    if e.borderColor != "black" { return false; }
    var illegal := FindIllegalSetCode(e.setCode, illegalSetCodes);
    if illegal { return false; }
    return true;
  }

  // ---------------------------------------------------------------------------------------
  // Building the faces of an entry
  // ---------------------------------------------------------------------------------------

  /** GetCardLayout: "split" and "adventure" are recognised; anything else defaults to a
      split card. */
  function GetCardLayout(layout: string): (r: Cards.CardLayout)
    ensures r != Cards.CardLayout.None
    ensures r == Cards.Adventure <==> layout == "adventure"
  {
    if layout == "split" then Cards.Split
    else if layout == "adventure" then Cards.Adventure
    else Cards.Split
  }

  /** The face built from position `i` of an entry's face list. */
  function FaceAt(i: nat): Cards.CardFace {
    if i == 0 then Cards.Front else Cards.Back
  }

  /** The template of a face: fronts use M15; a back uses DoubleFeature when the keywords
      mention aftermath in any case, Sketch for an adventure, and M15 otherwise. */
  function TemplateFor(face: Cards.CardFace, keywords: string, layout: Cards.CardLayout): (t: Cards.CardTemplate)
    ensures face == Cards.Front ==> t == Cards.M15
    ensures t == Cards.DoubleFeature
        <==> face == Cards.Back && Text.Contains(Text.ToLower(keywords), "aftermath")
    ensures t == Cards.Sketch
        <==> face == Cards.Back && !Text.Contains(Text.ToLower(keywords), "aftermath")
             && layout == Cards.Adventure
  {
    if face == Cards.Back then
      if Text.Contains(Text.ToLower(keywords), "aftermath") then Cards.DoubleFeature
      else if layout == Cards.Adventure then Cards.Sketch
      else Cards.M15
    else Cards.M15
  }

  /** GenerateArtSourceFileName: the segment of the name split on '/' that belongs to the
      face, without spaces or apostrophes, lower-cased, followed by the extension. */
  function ArtSourceFileName(name: string, face: Cards.CardFace, extension: string): (r: string)
    ensures |r| >= |extension| && r[|r| - |extension|..] == extension
    ensures forall i :: 0 <= i < |r| - |extension| ==> r[i] != ' ' && r[i] != '\'' && !('A' <= r[i] <= 'Z')
  {
    var segments := Text.Split(name, "/");
    var segment := if face == Cards.Front then segments[0] else segments[|segments| - 1];
    var noSpaces := Text.ReplaceAll(segment, " ", "");
    var stem := Text.ReplaceAll(noSpaces, "'", "");
    Text.ReplaceCharGone(segment, ' ', "");
    Text.ReplaceKeepsAbsent(noSpaces, "'", "", ' ');
    Text.ReplaceCharGone(noSpaces, '\'', "");
    var lower := Text.ToLower(stem);
    assert forall i :: 0 <= i < |lower| ==> lower[i] != ' ' && lower[i] != '\'' && !('A' <= lower[i] <= 'Z') by {
      forall i | 0 <= i < |lower|
        ensures lower[i] != ' ' && lower[i] != '\'' && !('A' <= lower[i] <= 'Z')
      {
        assert stem[i] in stem;
      }
    }
    var r := lower + extension;
    assert r[|r| - |extension|..] == extension;
    r
  }

  /** "A // B" with no '/' inside either half splits on '/' into "A ", "" and " B". */
  lemma {:induction false} SplitDual(a: string, b: string)
    requires '/' !in a && '/' !in b
    ensures Text.Split(a + " // " + b, "/") == [a + " ", "", " " + b]
  {
    var parts := [a + " ", "", " " + b];
    assert Text.Join(parts, "/") == a + " // " + b by {
      assert parts[1..][1..] == [" " + b];
      assert Text.Join(parts[1..], "/") == "" + "/" + (" " + b);
    }
    forall i | 0 <= i < |parts| ensures '/' !in parts[i] {
    }
    Text.SplitJoin(parts, "/", '/');
  }

  /** For "A // B" with no '/' inside either half, the front's art comes from "A " and the
      back's from " B". */
  lemma {:induction false} ArtSourceFileNameOfDual(a: string, b: string, extension: string)
    requires '/' !in a && '/' !in b
    ensures ArtSourceFileName(a + " // " + b, Cards.Front, extension)
         == Text.ToLower(Text.ReplaceAll(Text.ReplaceAll(a + " ", " ", ""), "'", "")) + extension
    ensures ArtSourceFileName(a + " // " + b, Cards.Back, extension)
         == Text.ToLower(Text.ReplaceAll(Text.ReplaceAll(" " + b, " ", ""), "'", "")) + extension
  {
    SplitDual(a, b);
  }

  /** The first override for this card name, lower-cased, and this face. */
  function FirstOverride(overrides: seq<Configuration.ManualArtistOverride>, name: string, face: Cards.CardFace)
    : (r: Option<Configuration.ManualArtistOverride>)
    ensures r.Some? ==>
      r.value in overrides && r.value.cardName == Text.ToLower(name) && r.value.cardFace == face
    ensures r.None? ==> forall i :: 0 <= i < |overrides| ==>
        !(overrides[i].cardName == Text.ToLower(name) && overrides[i].cardFace == face)
  {
    if overrides == [] then None
    else if overrides[0].cardName == Text.ToLower(name) && overrides[0].cardFace == face then Some(overrides[0])
    else
      var r := FirstOverride(overrides[1..], name, face);
      assert forall i :: 1 <= i < |overrides| ==> overrides[i] == overrides[1..][i - 1];
      r
  }

  /** The override found is the one at the first matching position. */
  lemma {:induction false} FirstOverrideIsFirst(overrides: seq<Configuration.ManualArtistOverride>, name: string,
                                                face: Cards.CardFace, k: nat)
    requires k < |overrides| && overrides[k].cardName == Text.ToLower(name) && overrides[k].cardFace == face
    requires forall i :: 0 <= i < k ==> !(overrides[i].cardName == Text.ToLower(name) && overrides[i].cardFace == face)
    ensures FirstOverride(overrides, name, face) == Some(overrides[k])
  {
    if k > 0 {
      FirstOverrideIsFirst(overrides[1..], name, face, k - 1);
    }
  }

  /** CheckForManualArtistOverride: the scan for the first matching override. */
  method CheckForManualArtistOverride(overrides: seq<Configuration.ManualArtistOverride>, name: string,
                                      face: Cards.CardFace)
    returns (r: Option<Configuration.ManualArtistOverride>)
    ensures r == FirstOverride(overrides, name, face)
  {
    for i := 0 to |overrides|
      invariant FirstOverride(overrides, name, face) == FirstOverride(overrides[i..], name, face)
    {
      assert overrides[i..][1..] == overrides[i + 1..];
      if overrides[i].cardName == Text.ToLower(name) && overrides[i].cardFace == face {
        return Some(overrides[i]);
      }
    }
    return None;
  }

  /** The subset mode is on and the entry's lower-cased name is not in the subset. */
  predicate OutsideSubset(e: CatalogEntry, settings: Configuration.Settings) {
    settings.useCardSubset && Text.ToLower(e.name) !in settings.cardSubset
  }

  /** The face built from position `f` of an entry's face list, before it joins the pool: the
      CardData constructor with the arguments AddCard passes. */
  function BuiltFace(e: CatalogEntry, settings: Configuration.Settings, f: nat): Cards.Card
    requires f < |e.cardFaces|
  {
    var face := FaceAt(f);
    var layout := GetCardLayout(e.layout);
    var color := Cards.ColorOf(e.cardFaces[f].manaCost);
    Cards.Card(e.name, Cards.DisplayNameOf(e.name, face), color, |color|,
               ArtSourceFileName(e.name, face, settings.artFileExtension), e.cardFaces[f].artist, false,
               face, layout, TemplateFor(face, e.keywords, layout), e.cardFaces[f].watermark, 0)
  }

  /** The artist of a face that was kept: the first matching override's, marked as manual,
      or the entry's. */
  predicate ArtistApplied(c: Cards.Card, e: CatalogEntry, settings: Configuration.Settings, f: nat)
    requires f < |e.cardFaces|
  {
    (c.artist, c.manualArtist) == ExpectedArtist(e, settings, f)
  }

  /** The artist, and whether it was corrected by hand, of the face at position `f`. */
  function ExpectedArtist(e: CatalogEntry, settings: Configuration.Settings, f: nat): (string, bool)
    requires f < |e.cardFaces|
  {
    match FirstOverride(settings.manualArtistOverrides, e.name, FaceAt(f))
    case Some(o) => (o.artist, true)
    case None => (e.cardFaces[f].artist, false)
  }

  /** The artist of face `c` of the entry named `name` once its override, if any, is applied. */
  function OverriddenArtist(c: Cards.Card, name: string, settings: Configuration.Settings): (string, bool) {
    match FirstOverride(settings.manualArtistOverrides, name, c.face)
    case Some(o) => (o.artist, true)
    case None => (c.artist, c.manualArtist)
  }

  // ---------------------------------------------------------------------------------------
  // The list of faces to render
  // ---------------------------------------------------------------------------------------

  /** The faces read so far, pairs at even positions, and the positions among them of the
      faces kept for rendering (the `Cards` list), in the order they were kept. */
  datatype Listing = Listing(faces: seq<Cards.Card>, cards: seq<nat>)

  /** Every kept position points at a face. */
  predicate InRange(faces: seq<Cards.Card>, cards: seq<nat>) {
    forall p :: 0 <= p < |cards| ==> cards[p] < |faces|
  }

  /** The position in `cards` of the first kept face with this display name. */
  function FirstWithDisplayName(faces: seq<Cards.Card>, cards: seq<nat>, name: string): (r: Option<nat>)
    requires InRange(faces, cards)
    ensures r.Some? ==> r.value < |cards| && faces[cards[r.value]].displayName == name
    ensures r.None? ==> forall p :: 0 <= p < |cards| ==> faces[cards[p]].displayName != name
    decreases |cards|
  {
    if cards == [] then None
    else if faces[cards[0]].displayName == name then Some(0)
    else
      match FirstWithDisplayName(faces, cards[1..], name)
      case None => None
      case Some(p) => Some(p + 1)
  }

  /** The watermark backfill of the pair at `k`: when either face has a watermark, the front,
      then the back, takes its sibling's if its own is empty. */
  function Backfilled(faces: seq<Cards.Card>, k: nat): seq<Cards.Card>
    requires k + 1 < |faces|
  {
    if Cards.NeedsWatermarkOverride(faces[k], faces[k + 1]) || Cards.NeedsWatermarkOverride(faces[k + 1], faces[k]) then
      var front := if faces[k].watermark == "" then Cards.WithCorrectedWatermark(faces, k, k + 1) else faces;
      if front[k + 1].watermark == "" then Cards.WithCorrectedWatermark(front, k + 1, k) else front
    else faces
  }

  /** One turn of AddCard's loop over the faces of the pair at `k`, for face `k + f`: a face
      whose display name is already kept only lends its watermark to the kept face; any other
      face gets its manual artist override, is kept, and the pair's watermarks are backfilled. */
  function Processed(s: Listing, e: CatalogEntry, settings: Configuration.Settings, k: nat, f: nat): (r: Listing)
    requires k + 1 < |s.faces| && f < 2 && InRange(s.faces, s.cards)
    ensures |r.faces| == |s.faces| && InRange(r.faces, r.cards)
  {
    var idx := k + f;
    var card := s.faces[idx];
    match FirstWithDisplayName(s.faces, s.cards, card.displayName)
    case Some(p) => Listing(Cards.WithWatermark(s.faces, s.cards[p], card.watermark), s.cards)
    case None =>
      var o := FirstOverride(settings.manualArtistOverrides, e.name, card.face);
      var faces := if o.Some? && card.face == o.value.cardFace then Cards.WithArtist(s.faces, idx, o.value.artist)
                   else s.faces;
      Listing(Backfilled(faces, k), s.cards + [idx])
  }

  /** The pool with the two faces of an entry appended, each pointing at the other. */
  function WithPair(s: Listing, front: Cards.Card, back: Cards.Card): Listing {
    var k := |s.faces|;
    Listing(s.faces + [front.(otherFace := k + 1), back.(otherFace := k)], s.cards)
  }

  /** AddCard on one legal entry: an entry outside the card subset changes nothing; an entry
      without exactly two faces makes the parse fail (`None`); otherwise both faces join the
      pool and go through the loop. */
  function AddEntry(s: Listing, e: CatalogEntry, settings: Configuration.Settings): (r: Option<Listing>)
    requires InRange(s.faces, s.cards)
    ensures r.None? <==> !OutsideSubset(e, settings) && |e.cardFaces| != 2
    ensures OutsideSubset(e, settings) ==> r == Some(s)
    ensures r.Some? ==> InRange(r.value.faces, r.value.cards)
  {
    if OutsideSubset(e, settings) then Some(s)
    else if |e.cardFaces| != 2 then None
    else
      var pair := WithPair(s, BuiltFace(e, settings, 0), BuiltFace(e, settings, 1));
      assert InRange(pair.faces, pair.cards);
      Some(Processed(Processed(pair, e, settings, |s.faces|, 0), e, settings, |s.faces|, 1))
  }

  /** ParseJson on the whole catalog: entries that fail the filter are skipped, the others
      are added in order, and an entry that makes AddCard fail ends the parse with what was
      built so far. */
  function ParseAll(s: Listing, entries: seq<CatalogEntry>, settings: Configuration.Settings): (r: Listing)
    requires InRange(s.faces, s.cards)
    ensures InRange(r.faces, r.cards)
    decreases |entries|
  {
    if entries == [] then s
    else if !Legal(entries[0], settings.illegalSetCodes) then ParseAll(s, entries[1..], settings)
    else
      match AddEntry(s, entries[0], settings)
      case None => s
      case Some(next) => ParseAll(next, entries[1..], settings)
  }

  // ---------------------------------------------------------------------------------------
  // What the list of faces keeps true
  // ---------------------------------------------------------------------------------------

  /** Two faces are the same but for artist, manual mark and watermark. */
  predicate SameIdentity(a: Cards.Card, b: Cards.Card) {
    b == a.(artist := b.artist, manualArtist := b.manualArtist, watermark := b.watermark)
  }

  /** `n` is `o` with some empty watermarks filled; the artist may also have changed at
      position `j` (at no position when `j` is negative), and nothing else has. */
  predicate Filled(o: seq<Cards.Card>, n: seq<Cards.Card>, j: int) {
    |o| == |n|
    && forall i :: 0 <= i < |o| ==>
         SameIdentity(o[i], n[i])
         && (o[i].watermark != "" ==> n[i].watermark == o[i].watermark)
         && (i != j ==> n[i].artist == o[i].artist && n[i].manualArtist == o[i].manualArtist)
  }

  /** `n` is `o` with some empty watermarks filled and possibly more faces appended. */
  predicate PoolGrows(o: seq<Cards.Card>, n: seq<Cards.Card>) {
    |o| <= |n| && Filled(o, n[..|o|], -1)
  }

  /** The kept faces: positions in increasing order, no display name twice. */
  predicate KeptWellFormed(faces: seq<Cards.Card>, cards: seq<nat>) {
    InRange(faces, cards)
    && (forall p, q :: 0 <= p < q < |cards| ==> cards[p] < cards[q])
    && forall p, q :: 0 <= p < q < |cards| ==> faces[cards[p]].displayName != faces[cards[q]].displayName
  }

  /** The pool is well formed and so is the list of kept faces. */
  predicate WellFormed(s: Listing) {
    Cards.PoolWellFormed(s.faces) && KeptWellFormed(s.faces, s.cards)
  }

  /** The two faces of the pair at `k` have a watermark each or none at all, so neither
      fails the watermark check of validation. */
  predicate Balanced(faces: seq<Cards.Card>, k: nat) {
    k + 1 < |faces| && (faces[k].watermark == "") == (faces[k + 1].watermark == "")
  }

  /** Some kept face has this display name. */
  predicate KeptName(s: Listing, name: string) {
    exists p :: 0 <= p < |s.cards| && s.cards[p] < |s.faces| && s.faces[s.cards[p]].displayName == name
  }

  lemma {:induction false} FilledTransitive(a: seq<Cards.Card>, b: seq<Cards.Card>, c: seq<Cards.Card>, j: int)
    requires Filled(a, b, j) && Filled(b, c, j)
    ensures Filled(a, c, j)
  {
  }

  /** Filling watermarks and changing artists keeps both the pool and the kept list well
      formed. */
  lemma {:induction false} FilledKeepsWellFormed(o: seq<Cards.Card>, n: seq<Cards.Card>, cards: seq<nat>, j: int)
    requires Cards.PoolWellFormed(o) && KeptWellFormed(o, cards) && Filled(o, n, j)
    ensures Cards.PoolWellFormed(n) && KeptWellFormed(n, cards)
  {
    assert forall i :: 0 <= i < |o| ==> n[i].displayName == o[i].displayName;
  }

  /** The backfill changes nothing but empty watermarks, and leaves the pair balanced. */
  lemma {:induction false} BackfilledFacts(faces: seq<Cards.Card>, k: nat)
    requires k + 1 < |faces|
    ensures Filled(faces, Backfilled(faces, k), -1) && Balanced(Backfilled(faces, k), k)
  {
    if Cards.NeedsWatermarkOverride(faces[k], faces[k + 1]) || Cards.NeedsWatermarkOverride(faces[k + 1], faces[k]) {
      var front := if faces[k].watermark == "" then Cards.WithCorrectedWatermark(faces, k, k + 1) else faces;
      assert Filled(faces, front, -1);
    }
  }

  /** What one turn of the loop for face `k + f` does to the shape of the listing: only
      empty watermarks and the artist of that face change, and the face is kept or not. */
  predicate Grew(s: Listing, r: Listing, k: nat, f: nat) {
    Filled(s.faces, r.faces, k + f) && (r.cards == s.cards || r.cards == s.cards + [k + f])
  }

  /** A turn of the loop keeps the face exactly when no kept face has its display name. */
  lemma {:induction false} ProcessedGrew(s: Listing, e: CatalogEntry, settings: Configuration.Settings, k: nat, f: nat)
    requires k + 1 < |s.faces| && f < 2 && InRange(s.faces, s.cards)
    ensures Grew(s, Processed(s, e, settings, k, f), k, f)
    ensures Processed(s, e, settings, k, f).cards == s.cards
        <==> FirstWithDisplayName(s.faces, s.cards, s.faces[k + f].displayName).Some?
  {
    var idx := k + f;
    var card := s.faces[idx];
    var r := Processed(s, e, settings, k, f);
    match FirstWithDisplayName(s.faces, s.cards, card.displayName)
    case Some(p) =>
      assert r == Listing(Cards.WithWatermark(s.faces, s.cards[p], card.watermark), s.cards);
      WatermarkFills(s.faces, s.cards[p], card.watermark);
      FilledWeaker(s.faces, r.faces, idx);
    case None =>
      var o := FirstOverride(settings.manualArtistOverrides, e.name, card.face);
      var faces := if o.Some? && card.face == o.value.cardFace then Cards.WithArtist(s.faces, idx, o.value.artist)
                   else s.faces;
      assert r == Listing(Backfilled(faces, k), s.cards + [idx]);
      if o.Some? && card.face == o.value.cardFace {
        ArtistFills(s.faces, idx, o.value.artist);
      } else {
        FilledSame(s.faces, idx);
      }
      BackfilledFacts(faces, k);
      FilledTransitive(s.faces, faces, r.faces, idx);
  }

  /** A face whose display name is already kept is skipped: the list is unchanged, and the
      only change to the pool is that the kept face takes the skipped face's watermark when
      its own is empty. */
  lemma {:induction false} ProcessedRepeat(s: Listing, e: CatalogEntry, settings: Configuration.Settings,
                                           k: nat, f: nat, p: nat)
    requires k + 1 < |s.faces| && f < 2 && InRange(s.faces, s.cards)
    requires FirstWithDisplayName(s.faces, s.cards, s.faces[k + f].displayName) == Some(p)
    ensures var r := Processed(s, e, settings, k, f); var q := s.cards[p];
      r.cards == s.cards && |r.faces| == |s.faces|
      && (forall i :: 0 <= i < |s.faces| && i != q ==> r.faces[i] == s.faces[i])
      && r.faces[q] == s.faces[q].(watermark := r.faces[q].watermark)
      && r.faces[q].watermark == (if s.faces[q].watermark == "" then s.faces[k + f].watermark else s.faces[q].watermark)
  {
    var r := Processed(s, e, settings, k, f);
    assert r == Listing(Cards.WithWatermark(s.faces, s.cards[p], s.faces[k + f].watermark), s.cards);
  }

  /** Filling one empty watermark only fills. */
  lemma {:induction false} WatermarkFills(faces: seq<Cards.Card>, i: nat, watermark: string)
    requires i < |faces|
    ensures Filled(faces, Cards.WithWatermark(faces, i, watermark), -1)
  {
  }

  /** Setting the artist of face `i` changes nothing else. */
  lemma {:induction false} ArtistFills(faces: seq<Cards.Card>, i: nat, artist: string)
    requires i < |faces|
    ensures Filled(faces, Cards.WithArtist(faces, i, artist), i)
  {
  }

  /** Nothing changed is nothing filled. */
  lemma {:induction false} FilledSame(faces: seq<Cards.Card>, j: int)
    ensures Filled(faces, faces, j)
  {
  }

  /** What holds for every face holds for every face but one. */
  lemma {:induction false} FilledWeaker(o: seq<Cards.Card>, n: seq<Cards.Card>, j: int)
    requires Filled(o, n, -1)
    ensures Filled(o, n, j)
  {
  }

  /** After a turn of the loop the face's display name is kept, as the face itself or as the
      face it merged into. */
  lemma {:induction false} ProcessedKeepsName(s: Listing, e: CatalogEntry, settings: Configuration.Settings, k: nat, f: nat)
    requires k + 1 < |s.faces| && f < 2 && InRange(s.faces, s.cards)
    ensures KeptName(Processed(s, e, settings, k, f), s.faces[k + f].displayName)
  {
    var idx := k + f;
    var name := s.faces[idx].displayName;
    var r := Processed(s, e, settings, k, f);
    match FirstWithDisplayName(s.faces, s.cards, name)
    case Some(p) =>
      assert r.faces[r.cards[p]].displayName == name;
    case None =>
      ProcessedGrew(s, e, settings, k, f);
      assert r.cards[|s.cards|] == idx;
  }

  /** A kept face leaves its pair balanced; a face that merges into an older one leaves a
      balanced pair balanced. */
  lemma {:induction false} ProcessedBalance(s: Listing, e: CatalogEntry, settings: Configuration.Settings, k: nat, f: nat)
    requires k + 1 < |s.faces| && f < 2 && InRange(s.faces, s.cards)
    requires forall p :: 0 <= p < |s.cards| ==> s.cards[p] < k + f
    ensures var r := Processed(s, e, settings, k, f);
      (r.cards != s.cards ==> Balanced(r.faces, k))
      && (r.cards == s.cards && Balanced(s.faces, k) ==> Balanced(r.faces, k))
  {
    var idx := k + f;
    var card := s.faces[idx];
    var r := Processed(s, e, settings, k, f);
    match FirstWithDisplayName(s.faces, s.cards, card.displayName)
    case Some(p) =>
      var q := s.cards[p];
      assert r.faces == Cards.WithWatermark(s.faces, q, card.watermark);
      if q != k {
        assert r.faces[k] == s.faces[k] && r.faces[k + 1] == s.faces[k + 1];
      }
    case None =>
      var o := FirstOverride(settings.manualArtistOverrides, e.name, card.face);
      var faces := if o.Some? && card.face == o.value.cardFace then Cards.WithArtist(s.faces, idx, o.value.artist)
                   else s.faces;
      BackfilledFacts(faces, k);
      assert r.faces == Backfilled(faces, k);
  }

  /** A kept face carries its artist override. */
  lemma {:induction false} ProcessedArtist(s: Listing, e: CatalogEntry, settings: Configuration.Settings, k: nat, f: nat)
    requires k + 1 < |s.faces| && f < 2 && InRange(s.faces, s.cards)
    ensures var r := Processed(s, e, settings, k, f);
      r.cards != s.cards ==>
        (r.faces[k + f].artist, r.faces[k + f].manualArtist) == OverriddenArtist(s.faces[k + f], e.name, settings)
  {
    var idx := k + f;
    var card := s.faces[idx];
    if FirstWithDisplayName(s.faces, s.cards, card.displayName).None? {
      var o := FirstOverride(settings.manualArtistOverrides, e.name, card.face);
      var faces := if o.Some? && card.face == o.value.cardFace then Cards.WithArtist(s.faces, idx, o.value.artist)
                   else s.faces;
      BackfilledFacts(faces, k);
      var r := Processed(s, e, settings, k, f);
      assert r.faces[idx].artist == faces[idx].artist && r.faces[idx].manualArtist == faces[idx].manualArtist;
    }
  }

  /** Keeping one more face, later than every kept one and with a new display name. */
  lemma {:induction false} KeptAppend(faces: seq<Cards.Card>, cards: seq<nat>, idx: nat)
    requires KeptWellFormed(faces, cards) && idx < |faces|
    requires forall p :: 0 <= p < |cards| ==> cards[p] < idx && faces[cards[p]].displayName != faces[idx].displayName
    ensures KeptWellFormed(faces, cards + [idx])
  {
  }

  /** One turn of the loop keeps the listing well formed. */
  lemma {:induction false} ProcessedWellFormed(s: Listing, e: CatalogEntry, settings: Configuration.Settings, k: nat, f: nat)
    requires k + 1 < |s.faces| && f < 2 && WellFormed(s)
    requires forall p :: 0 <= p < |s.cards| ==> s.cards[p] < k + f
    ensures WellFormed(Processed(s, e, settings, k, f))
  {
    var r := Processed(s, e, settings, k, f);
    ProcessedGrew(s, e, settings, k, f);
    FilledKeepsWellFormed(s.faces, r.faces, s.cards, k + f);
    if r.cards != s.cards {
      var name := s.faces[k + f].displayName;
      forall p | 0 <= p < |s.cards|
        ensures s.cards[p] < k + f && r.faces[s.cards[p]].displayName != r.faces[k + f].displayName
      {
        assert r.faces[s.cards[p]].displayName == s.faces[s.cards[p]].displayName;
      }
      KeptAppend(r.faces, s.cards, k + f);
    }
  }

  lemma {:induction false} FilledThenGrows(o: seq<Cards.Card>, a: seq<Cards.Card>, b: seq<Cards.Card>, j: int)
    requires PoolGrows(o, a) && Filled(a, b, j) && j >= |o|
    ensures PoolGrows(o, b)
  {
    assert forall i :: 0 <= i < |o| ==> a[..|o|][i] == a[i] && b[..|o|][i] == b[i];
  }

  lemma {:induction false} PoolGrowsTransitive(a: seq<Cards.Card>, b: seq<Cards.Card>, c: seq<Cards.Card>)
    requires PoolGrows(a, b) && PoolGrows(b, c)
    ensures PoolGrows(a, c)
  {
    assert forall i :: 0 <= i < |a| ==> b[..|a|][i] == b[i] && c[..|a|][i] == c[i] && c[..|b|][i] == c[i];
  }

  /** The two faces of an entry as the constructor leaves them, for the pair at `k`. */
  predicate FreshPair(front: Cards.Card, back: Cards.Card, e: CatalogEntry) {
    |e.cardFaces| == 2
    && front.name == e.name && back.name == e.name
    && front.face == Cards.Front && back.face == Cards.Back
    && front.colorCount == |front.color| && back.colorCount == |back.color|
    && front.artist == e.cardFaces[0].artist && !front.manualArtist
    && back.artist == e.cardFaces[1].artist && !back.manualArtist
  }

  /** Appending the two faces of an entry keeps the listing well formed and only grows it. */
  lemma {:induction false} WithPairFacts(s: Listing, front: Cards.Card, back: Cards.Card, e: CatalogEntry)
    requires WellFormed(s) && FreshPair(front, back, e)
    ensures var pair := WithPair(s, front, back);
      WellFormed(pair) && PoolGrows(s.faces, pair.faces) && |pair.faces| == |s.faces| + 2
      && |s.faces| % 2 == 0 && pair.cards == s.cards
      && (forall p :: 0 <= p < |s.cards| ==> s.cards[p] < |s.faces|)
      && pair.faces[|s.faces|] == front.(otherFace := |s.faces| + 1)
      && pair.faces[|s.faces| + 1] == back.(otherFace := |s.faces|)
  {
    var pair := WithPair(s, front, back);
    assert pair.faces[..|s.faces|] == s.faces;
    assert forall i :: 0 <= i < |s.faces| ==> pair.faces[i] == s.faces[i];
  }

  /** What the turns over a fresh pair need to know about the pool with the pair appended. */
  lemma {:induction false} PairBasics(s: Listing, front: Cards.Card, back: Cards.Card, e: CatalogEntry)
    requires WellFormed(s) && FreshPair(front, back, e)
    ensures var pair := WithPair(s, front, back);
      InRange(pair.faces, pair.cards) && |pair.faces| == |s.faces| + 2 && pair.cards == s.cards
      && (forall p :: 0 <= p < |s.cards| ==> s.cards[p] < |s.faces|)
      && pair.faces[|s.faces|] == front.(otherFace := |s.faces| + 1)
      && pair.faces[|s.faces| + 1] == back.(otherFace := |s.faces|)
  {
    WithPairFacts(s, front, back, e);
  }

  /** The loop over a fresh pair keeps the listing well formed. */
  lemma {:induction false} PairWellFormed(s: Listing, front: Cards.Card, back: Cards.Card, e: CatalogEntry,
                       settings: Configuration.Settings)
    requires WellFormed(s) && FreshPair(front, back, e)
    ensures WellFormed(Processed(Processed(WithPair(s, front, back), e, settings, |s.faces|, 0), e, settings, |s.faces|, 1))
  {
    var k := |s.faces|;
    var pair := WithPair(s, front, back);
    WithPairFacts(s, front, back, e);
    ProcessedWellFormed(pair, e, settings, k, 0);
    var r0 := Processed(pair, e, settings, k, 0);
    ProcessedGrew(pair, e, settings, k, 0);
    assert forall p :: 0 <= p < |r0.cards| ==> r0.cards[p] < k + 1;
    ProcessedWellFormed(r0, e, settings, k, 1);
  }

  /** Two turns of the loop after a fresh pair was appended only grow the pool, append at
      most the two new faces, in order, and keep the identity of both. */
  lemma {:induction false} TwoStepsShape(s: Listing, pair: Listing, r0: Listing, r1: Listing)
    requires PoolGrows(s.faces, pair.faces) && |pair.faces| == |s.faces| + 2 && pair.cards == s.cards
    requires Grew(pair, r0, |s.faces|, 0) && Grew(r0, r1, |s.faces|, 1)
    requires pair.faces[|s.faces|].name == pair.faces[|s.faces| + 1].name
    ensures var k := |s.faces|; var n := |s.cards|;
      PoolGrows(s.faces, r1.faces) && |r1.faces| == k + 2
      && SameIdentity(pair.faces[k], r1.faces[k]) && SameIdentity(pair.faces[k + 1], r1.faces[k + 1])
      && n <= |r1.cards| <= n + 2 && r1.cards[..n] == s.cards
      && (forall p :: n <= p < |r1.cards| ==>
            k <= r1.cards[p] < k + 2 && r1.faces[r1.cards[p]].name == pair.faces[k].name)
  {
    var k := |s.faces|;
    var n := |s.cards|;
    FilledThenGrows(s.faces, pair.faces, r0.faces, k);
    FilledThenGrows(s.faces, r0.faces, r1.faces, k + 1);
    if r0.cards == s.cards {
      if r1.cards == r0.cards {
        assert r1.cards[n..] == [];
      } else {
        assert r1.cards[n..] == [k + 1];
      }
    } else {
      if r1.cards == r0.cards {
        assert r1.cards[n..] == [k];
      } else {
        assert r1.cards[n..] == [k, k + 1];
      }
    }
    assert r1.cards[..n] == s.cards;
    assert forall p :: n <= p < |r1.cards| ==> r1.cards[p] == r1.cards[n..][p - n];
  }

  /** A kept display name stays kept while only watermarks and artists change and kept faces
      are only appended. */
  lemma {:induction false} KeptNameCarries(a: Listing, b: Listing, j: int, name: string)
    requires KeptName(a, name) && Filled(a.faces, b.faces, j)
    requires |a.cards| <= |b.cards| && b.cards[..|a.cards|] == a.cards
    ensures KeptName(b, name)
  {
    var p :| 0 <= p < |a.cards| && a.cards[p] < |a.faces| && a.faces[a.cards[p]].displayName == name;
    assert b.cards[p] == b.cards[..|a.cards|][p];
  }

  /** The loop over a fresh pair only grows the pool and appends at most the two new faces,
      in order, keeping the identity the constructor gave them. */
  lemma {:induction false} PairShape(s: Listing, front: Cards.Card, back: Cards.Card, e: CatalogEntry,
                  settings: Configuration.Settings)
    requires WellFormed(s) && FreshPair(front, back, e)
    ensures var r := Processed(Processed(WithPair(s, front, back), e, settings, |s.faces|, 0), e, settings, |s.faces|, 1);
      var k := |s.faces|; var n := |s.cards|;
      PoolGrows(s.faces, r.faces) && |r.faces| == k + 2
      && SameIdentity(front.(otherFace := k + 1), r.faces[k])
      && SameIdentity(back.(otherFace := k), r.faces[k + 1])
      && n <= |r.cards| <= n + 2 && r.cards[..n] == s.cards
      && forall p :: n <= p < |r.cards| ==> k <= r.cards[p] < k + 2 && r.faces[r.cards[p]].name == e.name
  {
    var k := |s.faces|;
    var pair := WithPair(s, front, back);
    WithPairFacts(s, front, back, e);
    var r0 := Processed(pair, e, settings, k, 0);
    ProcessedGrew(pair, e, settings, k, 0);
    ProcessedGrew(r0, e, settings, k, 1);
    TwoStepsShape(s, pair, r0, Processed(r0, e, settings, k, 1));
  }

  /** A turn of the loop appends at most its own face to the kept positions. */
  lemma {:induction false} GrewBound(s: Listing, r: Listing, k: nat, f: nat)
    requires Grew(s, r, k, f) && forall p :: 0 <= p < |s.cards| ==> s.cards[p] < k + f
    ensures forall p :: 0 <= p < |r.cards| ==> r.cards[p] < k + f + 1
  {
  }

  /** Over two turns, the display names kept by each turn stay kept. */
  lemma {:induction false} TwoStepsNames(pair: Listing, r0: Listing, r1: Listing, k: nat)
    requires k + 1 < |pair.faces| && Grew(pair, r0, k, 0) && Grew(r0, r1, k, 1)
    requires KeptName(r0, pair.faces[k].displayName) && KeptName(r1, r0.faces[k + 1].displayName)
    ensures KeptName(r1, r1.faces[k].displayName) && KeptName(r1, r1.faces[k + 1].displayName)
  {
    assert r1.cards[..|r0.cards|] == r0.cards;
    KeptNameCarries(r0, r1, k + 1, pair.faces[k].displayName);
    assert r1.faces[k].displayName == r0.faces[k].displayName == pair.faces[k].displayName;
    assert r1.faces[k + 1].displayName == r0.faces[k + 1].displayName;
  }

  /** After the loop over a fresh pair the display names of both faces are kept, as the
      faces themselves or as the faces they merged into. */
  lemma {:induction false} PairNames(s: Listing, front: Cards.Card, back: Cards.Card, e: CatalogEntry,
                  settings: Configuration.Settings)
    requires WellFormed(s) && FreshPair(front, back, e)
    ensures var r := Processed(Processed(WithPair(s, front, back), e, settings, |s.faces|, 0), e, settings, |s.faces|, 1); var k := |s.faces|;
      |r.faces| == k + 2 && KeptName(r, r.faces[k].displayName) && KeptName(r, r.faces[k + 1].displayName)
  {
    var k := |s.faces|;
    var pair := WithPair(s, front, back);
    WithPairFacts(s, front, back, e);
    var r0 := Processed(pair, e, settings, k, 0);
    ProcessedGrew(pair, e, settings, k, 0);
    ProcessedGrew(r0, e, settings, k, 1);
    ProcessedKeepsName(pair, e, settings, k, 0);
    ProcessedKeepsName(r0, e, settings, k, 1);
    TwoStepsNames(pair, r0, Processed(r0, e, settings, k, 1), k);
  }

  /** Over two turns on a fresh pair, the pair's front is among the faces appended to the
      kept ones exactly when the first turn kept it, and its back exactly when the second did. */
  lemma {:induction false} TwoStepsPositions(pair: Listing, r0: Listing, r1: Listing, k: nat)
    requires k + 1 < |pair.faces| && Grew(pair, r0, k, 0) && Grew(r0, r1, k, 1)
    requires forall p :: 0 <= p < |pair.cards| ==> pair.cards[p] < k
    ensures |pair.cards| <= |r1.cards|
    ensures k in r1.cards[|pair.cards|..] <==> r0.cards != pair.cards
    ensures k + 1 in r1.cards[|pair.cards|..] <==> r1.cards != r0.cards
  {
    var n := |pair.cards|;
    if r0.cards == pair.cards {
      if r1.cards == r0.cards {
        assert r1.cards[n..] == [];
      } else {
        assert r1.cards[n..] == [k + 1];
      }
    } else {
      if r1.cards == r0.cards {
        assert r1.cards[n..] == [k];
      } else {
        assert r1.cards[n..] == [k, k + 1];
      }
    }
  }

  /** Over two turns on a fresh pair, a kept front carries its override. */
  lemma {:induction false} TwoStepsArtistFront(pair: Listing, r0: Listing, r1: Listing, k: nat, e: CatalogEntry,
                            settings: Configuration.Settings)
    requires |e.cardFaces| == 2 && k + 1 < |pair.faces|
    requires pair.faces[k].face == Cards.Front && pair.faces[k].artist == e.cardFaces[0].artist
             && !pair.faces[k].manualArtist
    requires Grew(pair, r0, k, 0) && Grew(r0, r1, k, 1)
    requires forall p :: 0 <= p < |pair.cards| ==> pair.cards[p] < k
    requires r0.cards != pair.cards ==>
      (r0.faces[k].artist, r0.faces[k].manualArtist) == OverriddenArtist(pair.faces[k], e.name, settings)
    ensures |pair.cards| <= |r1.cards|
    ensures k in r1.cards[|pair.cards|..] ==> ArtistApplied(r1.faces[k], e, settings, 0)
  {
    TwoStepsPositions(pair, r0, r1, k);
    assert OverriddenArtist(pair.faces[k], e.name, settings) == ExpectedArtist(e, settings, 0);
    assert r1.faces[k].artist == r0.faces[k].artist && r1.faces[k].manualArtist == r0.faces[k].manualArtist;
  }

  /** Over two turns on a fresh pair, a kept back carries its override. */
  lemma {:induction false} TwoStepsArtistBack(pair: Listing, r0: Listing, r1: Listing, k: nat, e: CatalogEntry,
                           settings: Configuration.Settings)
    requires |e.cardFaces| == 2 && k + 1 < |pair.faces|
    requires pair.faces[k + 1].face == Cards.Back && pair.faces[k + 1].artist == e.cardFaces[1].artist
             && !pair.faces[k + 1].manualArtist
    requires Grew(pair, r0, k, 0) && Grew(r0, r1, k, 1)
    requires forall p :: 0 <= p < |pair.cards| ==> pair.cards[p] < k
    requires r1.cards != r0.cards ==>
      (r1.faces[k + 1].artist, r1.faces[k + 1].manualArtist) == OverriddenArtist(r0.faces[k + 1], e.name, settings)
    ensures |pair.cards| <= |r1.cards|
    ensures k + 1 in r1.cards[|pair.cards|..] ==> ArtistApplied(r1.faces[k + 1], e, settings, 1)
  {
    TwoStepsPositions(pair, r0, r1, k);
    assert r0.faces[k + 1].face == pair.faces[k + 1].face && r0.faces[k + 1].artist == pair.faces[k + 1].artist
           && r0.faces[k + 1].manualArtist == pair.faces[k + 1].manualArtist;
    assert OverriddenArtist(r0.faces[k + 1], e.name, settings) == ExpectedArtist(e, settings, 1);
  }

  /** Over two turns on a fresh pair, the pair ends balanced once either face was kept. */
  lemma {:induction false} TwoStepsBalanced(pair: Listing, r0: Listing, r1: Listing, k: nat)
    requires k + 1 < |pair.faces| && Grew(pair, r0, k, 0) && Grew(r0, r1, k, 1)
    requires forall p :: 0 <= p < |pair.cards| ==> pair.cards[p] < k
    requires r0.cards != pair.cards ==> Balanced(r0.faces, k)
    requires r1.cards != r0.cards ==> Balanced(r1.faces, k)
    requires r1.cards == r0.cards && Balanced(r0.faces, k) ==> Balanced(r1.faces, k)
    ensures |pair.cards| <= |r1.cards|
    ensures |r1.cards| > |pair.cards| ==> Balanced(r1.faces, k)
  {
  }

  /** After the loop over a fresh pair, its front, if kept, carries its artist override. */
  lemma {:induction false} PairArtistFront(s: Listing, front: Cards.Card, back: Cards.Card, e: CatalogEntry,
                        settings: Configuration.Settings)
    requires WellFormed(s) && FreshPair(front, back, e)
    ensures var r := Processed(Processed(WithPair(s, front, back), e, settings, |s.faces|, 0), e, settings, |s.faces|, 1);
      |r.faces| == |s.faces| + 2 && |s.cards| <= |r.cards|
      && (|s.faces| in r.cards[|s.cards|..] ==> ArtistApplied(r.faces[|s.faces|], e, settings, 0))
  {
    var k := |s.faces|;
    var pair := WithPair(s, front, back);
    PairBasics(s, front, back, e);
    var r0 := Processed(pair, e, settings, k, 0);
    ProcessedGrew(pair, e, settings, k, 0);
    ProcessedGrew(r0, e, settings, k, 1);
    ProcessedArtist(pair, e, settings, k, 0);
    var r1 := Processed(r0, e, settings, k, 1);
    TwoStepsArtistFront(pair, r0, r1, k, e, settings);
    assert pair.cards == s.cards;
  }

  /** After the loop over a fresh pair, its back, if kept, carries its artist override. */
  lemma {:induction false} PairArtistBack(s: Listing, front: Cards.Card, back: Cards.Card, e: CatalogEntry,
                       settings: Configuration.Settings)
    requires WellFormed(s) && FreshPair(front, back, e)
    ensures var r := Processed(Processed(WithPair(s, front, back), e, settings, |s.faces|, 0), e, settings, |s.faces|, 1);
      |r.faces| == |s.faces| + 2 && |s.cards| <= |r.cards|
      && (|s.faces| + 1 in r.cards[|s.cards|..] ==> ArtistApplied(r.faces[|s.faces| + 1], e, settings, 1))
  {
    var k := |s.faces|;
    var pair := WithPair(s, front, back);
    PairBasics(s, front, back, e);
    var r0 := Processed(pair, e, settings, k, 0);
    ProcessedGrew(pair, e, settings, k, 0);
    ProcessedGrew(r0, e, settings, k, 1);
    ProcessedArtist(r0, e, settings, k, 1);
    var r1 := Processed(r0, e, settings, k, 1);
    TwoStepsArtistBack(pair, r0, r1, k, e, settings);
    assert pair.cards == s.cards;
  }

  /** After the loop over a fresh pair that kept either face, the pair's watermarks are
      balanced. */
  lemma {:induction false} PairBalanced(s: Listing, front: Cards.Card, back: Cards.Card, e: CatalogEntry,
                     settings: Configuration.Settings)
    requires WellFormed(s) && FreshPair(front, back, e)
    ensures var r := Processed(Processed(WithPair(s, front, back), e, settings, |s.faces|, 0), e, settings, |s.faces|, 1);
      |r.faces| == |s.faces| + 2 && (|r.cards| > |s.cards| ==> Balanced(r.faces, |s.faces|))
  {
    var k := |s.faces|;
    var pair := WithPair(s, front, back);
    PairBasics(s, front, back, e);
    var r0 := Processed(pair, e, settings, k, 0);
    ProcessedGrew(pair, e, settings, k, 0);
    ProcessedGrew(r0, e, settings, k, 1);
    ProcessedBalance(pair, e, settings, k, 0);
    GrewBound(pair, r0, k, 0);
    ProcessedBalance(r0, e, settings, k, 1);
    TwoStepsBalanced(pair, r0, Processed(r0, e, settings, k, 1), k);
  }

  /** The faces the constructor builds for an entry with two faces form a fresh pair. */
  lemma {:induction false} BuiltFacesFresh(e: CatalogEntry, settings: Configuration.Settings)
    requires |e.cardFaces| == 2
    ensures FreshPair(BuiltFace(e, settings, 0), BuiltFace(e, settings, 1), e)
    ensures BuiltFace(e, settings, 0).name == e.name && BuiltFace(e, settings, 1).name == e.name
  {
  }

  /** AddCard keeps the listing well formed. */
  lemma {:induction false} AddEntryWellFormed(s: Listing, e: CatalogEntry, settings: Configuration.Settings)
    requires WellFormed(s)
    ensures AddEntry(s, e, settings).Some? ==> WellFormed(AddEntry(s, e, settings).value)
  {
    if !OutsideSubset(e, settings) && |e.cardFaces| == 2 {
      BuiltFacesFresh(e, settings);
      PairWellFormed(s, BuiltFace(e, settings, 0), BuiltFace(e, settings, 1), e, settings);
    }
  }

  /** AddCard on an entry inside the subset and with two faces: the pool grows by the two
      faces as built (but for artist and watermark), older faces have at most an empty
      watermark filled, and at most these two faces are appended to the kept ones. */
  lemma {:induction false} AddEntryShape(s: Listing, e: CatalogEntry, settings: Configuration.Settings)
    requires WellFormed(s) && !OutsideSubset(e, settings) && |e.cardFaces| == 2
    ensures var r := AddEntry(s, e, settings).value; var k := |s.faces|; var n := |s.cards|;
      PoolGrows(s.faces, r.faces) && |r.faces| == k + 2
      && SameIdentity(BuiltFace(e, settings, 0).(otherFace := k + 1), r.faces[k])
      && SameIdentity(BuiltFace(e, settings, 1).(otherFace := k), r.faces[k + 1])
      && n <= |r.cards| <= n + 2 && r.cards[..n] == s.cards
      && forall p :: n <= p < |r.cards| ==> k <= r.cards[p] < k + 2 && r.faces[r.cards[p]].name == e.name
  {
    BuiltFacesFresh(e, settings);
    PairShape(s, BuiltFace(e, settings, 0), BuiltFace(e, settings, 1), e, settings);
  }

  /** AddCard never loses a display name: each face of the entry is kept or merges into the
      kept face that already has its display name. */
  lemma {:induction false} AddEntryKeepsNames(s: Listing, e: CatalogEntry, settings: Configuration.Settings)
    requires WellFormed(s) && !OutsideSubset(e, settings) && |e.cardFaces| == 2
    ensures var r := AddEntry(s, e, settings).value; var k := |s.faces|;
      |r.faces| == k + 2 && KeptName(r, r.faces[k].displayName) && KeptName(r, r.faces[k + 1].displayName)
  {
    BuiltFacesFresh(e, settings);
    PairNames(s, BuiltFace(e, settings, 0), BuiltFace(e, settings, 1), e, settings);
  }

  /** Every face AddCard keeps carries its manual artist override, if one matches, and has a
      watermark exactly when its sibling does. */
  lemma {:induction false} AddEntryKeptFaces(s: Listing, e: CatalogEntry, settings: Configuration.Settings)
    requires WellFormed(s) && !OutsideSubset(e, settings) && |e.cardFaces| == 2
    ensures var r := AddEntry(s, e, settings).value; var k := |s.faces|; var n := |s.cards|;
      |r.faces| == k + 2 && n <= |r.cards|
      && (k in r.cards[n..] ==> ArtistApplied(r.faces[k], e, settings, 0) && Balanced(r.faces, k))
      && (k + 1 in r.cards[n..] ==> ArtistApplied(r.faces[k + 1], e, settings, 1) && Balanced(r.faces, k))
  {
    BuiltFacesFresh(e, settings);
    PairArtistFront(s, BuiltFace(e, settings, 0), BuiltFace(e, settings, 1), e, settings);
    PairArtistBack(s, BuiltFace(e, settings, 0), BuiltFace(e, settings, 1), e, settings);
    PairBalanced(s, BuiltFace(e, settings, 0), BuiltFace(e, settings, 1), e, settings);
  }

  /** The names of the entries that pass the filter and the card subset. */
  function LegalNames(entries: seq<CatalogEntry>, settings: Configuration.Settings): set<string> {
    if entries == [] then {}
    else
      (if Legal(entries[0], settings.illegalSetCodes) && !OutsideSubset(entries[0], settings)
       then {entries[0].name} else {})
      + LegalNames(entries[1..], settings)
  }

  /** ParseJson keeps the listing well formed. */
  lemma {:induction false} ParseAllWellFormed(s: Listing, entries: seq<CatalogEntry>, settings: Configuration.Settings)
    requires WellFormed(s)
    ensures WellFormed(ParseAll(s, entries, settings))
    decreases |entries|
  {
    if entries != [] && Legal(entries[0], settings.illegalSetCodes) {
      AddEntryWellFormed(s, entries[0], settings);
      match AddEntry(s, entries[0], settings)
      case None =>
      case Some(next) => ParseAllWellFormed(next, entries[1..], settings);
    } else if entries != [] {
      ParseAllWellFormed(s, entries[1..], settings);
    }
  }

  /** ParseJson only grows the pool and appends to the kept faces, each of them a face of an
      entry that passed the filter and the card subset. */
  lemma {:induction false} ParseAllGrows(s: Listing, entries: seq<CatalogEntry>, settings: Configuration.Settings)
    requires WellFormed(s)
    ensures var r := ParseAll(s, entries, settings);
      PoolGrows(s.faces, r.faces) && |s.cards| <= |r.cards| && r.cards[..|s.cards|] == s.cards
      && forall p :: |s.cards| <= p < |r.cards| ==> r.faces[r.cards[p]].name in LegalNames(entries, settings)
    decreases |entries|
  {
    var r := ParseAll(s, entries, settings);
    if entries == [] || (Legal(entries[0], settings.illegalSetCodes) && AddEntry(s, entries[0], settings).None?) {
      assert r == s;
      assert s.faces[..|s.faces|] == s.faces && s.cards[..|s.cards|] == s.cards;
    } else if !Legal(entries[0], settings.illegalSetCodes) {
      ParseAllGrows(s, entries[1..], settings);
    } else {
      var next := AddEntry(s, entries[0], settings).value;
      AddEntryWellFormed(s, entries[0], settings);
      ParseAllGrows(next, entries[1..], settings);
      ParseAllGrowsAdded(s, entries, settings);
    }
  }

  /** The step of ParseAllGrows for a legal first entry that was added: the growth of its
      AddCard composed with the growth of the rest of the parse. */
  lemma {:induction false} ParseAllGrowsAdded(s: Listing, entries: seq<CatalogEntry>, settings: Configuration.Settings)
    requires WellFormed(s) && entries != [] && Legal(entries[0], settings.illegalSetCodes)
    requires AddEntry(s, entries[0], settings).Some?
    requires var next := AddEntry(s, entries[0], settings).value;
      WellFormed(next)
      && var r := ParseAll(next, entries[1..], settings);
      PoolGrows(next.faces, r.faces) && |next.cards| <= |r.cards| && r.cards[..|next.cards|] == next.cards
      && forall p :: |next.cards| <= p < |r.cards| ==> r.faces[r.cards[p]].name in LegalNames(entries[1..], settings)
    ensures var r := ParseAll(s, entries, settings);
      PoolGrows(s.faces, r.faces) && |s.cards| <= |r.cards| && r.cards[..|s.cards|] == s.cards
      && forall p :: |s.cards| <= p < |r.cards| ==> r.faces[r.cards[p]].name in LegalNames(entries, settings)
  {
    var e := entries[0];
    var next := AddEntry(s, e, settings).value;
    var r := ParseAll(s, entries, settings);
    assert r == ParseAll(next, entries[1..], settings);
    ParseAllWellFormed(next, entries[1..], settings);
    if OutsideSubset(e, settings) {
      assert next == s;
      assert s.faces[..|s.faces|] == s.faces && s.cards[..|s.cards|] == s.cards;
    } else {
      AddEntryShape(s, e, settings);
    }
    NamesCarry(s, next, r, e.name, LegalNames(entries[1..], settings), LegalNames(entries, settings));
  }

  /** Composes the growth of one AddCard with the growth of the rest of the parse. */
  lemma {:induction false} NamesCarry(s: Listing, next: Listing, r: Listing, name: string, rest: set<string>, all: set<string>)
    requires PoolGrows(s.faces, next.faces) && |s.cards| <= |next.cards| && next.cards[..|s.cards|] == s.cards
    requires PoolGrows(next.faces, r.faces) && |next.cards| <= |r.cards| && r.cards[..|next.cards|] == next.cards
    requires forall p :: |s.cards| <= p < |next.cards| ==> next.cards[p] < |next.faces| && next.faces[next.cards[p]].name == name
    requires InRange(r.faces, r.cards)
    requires forall p :: |next.cards| <= p < |r.cards| ==> r.faces[r.cards[p]].name in rest
    requires rest <= all && (|next.cards| > |s.cards| ==> name in all)
    ensures PoolGrows(s.faces, r.faces) && |s.cards| <= |r.cards| && r.cards[..|s.cards|] == s.cards
    ensures forall p :: |s.cards| <= p < |r.cards| ==> r.faces[r.cards[p]].name in all
  {
    PoolGrowsTransitive(s.faces, next.faces, r.faces);
    forall p | |s.cards| <= p < |next.cards|
      ensures r.cards[p] == next.cards[p] && r.faces[next.cards[p]].name == name
    {
      assert r.cards[..|next.cards|][p] == r.cards[p];
      assert r.faces[..|next.faces|][next.cards[p]] == r.faces[next.cards[p]];
    }
    assert r.cards[..|s.cards|] == s.cards by {
      assert r.cards[..|s.cards|] == r.cards[..|next.cards|][..|s.cards|];
    }
  }

  /** The kept face found is the first one with the display name. */
  lemma {:induction false} FirstWithDisplayNameIsFirst(faces: seq<Cards.Card>, cards: seq<nat>, name: string, p: nat)
    requires InRange(faces, cards) && p < |cards| && faces[cards[p]].displayName == name
    requires forall q :: 0 <= q < p ==> faces[cards[q]].displayName != name
    ensures FirstWithDisplayName(faces, cards, name) == Some(p)
    decreases p
  {
    if p > 0 {
      FirstWithDisplayNameIsFirst(faces, cards[1..], name, p - 1);
    }
  }

  /** A face with the fields the constructor gives face `f` of the entry is that built face. */
  lemma {:induction false} IsBuiltFace(e: CatalogEntry, settings: Configuration.Settings, f: nat, c: Cards.Card)
    requires f < |e.cardFaces|
    requires c.name == e.name && c.displayName == Cards.DisplayNameOf(e.name, FaceAt(f))
    requires c.color == Cards.ColorOf(e.cardFaces[f].manaCost) && c.colorCount == |c.color|
    requires c.artFileName == ArtSourceFileName(e.name, FaceAt(f), settings.artFileExtension)
    requires c.artist == e.cardFaces[f].artist && !c.manualArtist
    requires c.face == FaceAt(f) && c.layout == GetCardLayout(e.layout)
    requires c.template == TemplateFor(FaceAt(f), e.keywords, GetCardLayout(e.layout))
    requires c.watermark == e.cardFaces[f].watermark && c.otherFace == 0
    ensures c == BuiltFace(e, settings, f)
  {
  }

  /** AddCard on an entry inside the subset with two faces is the loop over its built pair. */
  lemma {:induction false} AddEntryUnfolds(s: Listing, e: CatalogEntry, settings: Configuration.Settings)
    requires InRange(s.faces, s.cards) && !OutsideSubset(e, settings) && |e.cardFaces| == 2
    ensures AddEntry(s, e, settings)
         == Some(Processed(Processed(WithPair(s, BuiltFace(e, settings, 0), BuiltFace(e, settings, 1)),
                                     e, settings, |s.faces|, 0), e, settings, |s.faces|, 1))
  {
  }

  // ---------------------------------------------------------------------------------------
  // CardManager
  // ---------------------------------------------------------------------------------------

  /** CardManager: the faces of every entry read so far, which it builds and corrects in
      place, and the `Cards` list of the faces kept for rendering, held as positions into
      that pool. */
  class CardManager {
    const pool: Cards.FacePool
    var cards: seq<nat>

    ghost predicate Valid()
      reads this, pool
    {
      pool.Valid() && KeptWellFormed(pool.faces, cards)
    }

    /** The pool and the kept positions as one value. */
    function Listed(): Listing
      reads this, pool
    {
      Listing(pool.faces, cards)
    }

    constructor ()
      ensures Valid() && fresh(pool) && Listed() == Listing([], [])
    {
      pool := new Cards.FacePool();
      cards := [];
    }

    /** The `Cards` list: the kept faces in the order they were kept, no display name twice. */
    function Kept(): (r: seq<Cards.Card>)
      reads this, pool
      requires Valid()
      ensures |r| == |cards| && forall p :: 0 <= p < |r| ==> r[p] == pool.faces[cards[p]]
      ensures forall p, q :: 0 <= p < q < |r| ==> r[p].displayName != r[q].displayName
    {
      var faces, kept := pool.faces, cards;
      seq(|kept|, p requires 0 <= p < |kept| && kept[p] < |faces| => faces[kept[p]])
    }

    /** The scan of the `Cards` list for a face with this display name. */
    method FindRepeat(name: string) returns (r: Option<nat>)
      requires InRange(pool.faces, cards)
      ensures r == FirstWithDisplayName(pool.faces, cards, name)
    {
      for p := 0 to |cards|
        invariant forall q :: 0 <= q < p ==> pool.faces[cards[q]].displayName != name
      {
        if pool.faces[cards[p]].displayName == name {
          FirstWithDisplayNameIsFirst(pool.faces, cards, name, p);
          return Some(p);
        }
      }
      return None;
    }

    /** The watermark backfill of the pair at `k`. */
    method BackfillPair(k: nat)
      requires pool.Valid() && k % 2 == 0 && k + 1 < |pool.faces|
      modifies pool
      ensures pool.Valid() && pool.faces == Backfilled(old(pool.faces), k)
    {
      assert Cards.Sibling(k) == k + 1 && Cards.Sibling(k + 1) == k;
      if Cards.NeedsWatermarkOverride(pool.faces[k], pool.faces[k + 1])
         || Cards.NeedsWatermarkOverride(pool.faces[k + 1], pool.faces[k]) {
        if pool.faces[k].watermark == "" {
          pool.CorrectWatermark(k);
        }
        if pool.faces[k + 1].watermark == "" {
          pool.CorrectWatermark(k + 1);
        }
      }
    }

    /** One turn of AddCard's loop over the pair at `k`, for face `k + f`. */
    method ProcessFace(e: CatalogEntry, settings: Configuration.Settings, k: nat, f: nat)
      requires pool.Valid() && k % 2 == 0 && k + 1 < |pool.faces| && f < 2 && InRange(pool.faces, cards)
      modifies this, pool
      ensures pool.Valid() && Listed() == Processed(old(Listed()), e, settings, k, f)
    {
      var idx := k + f;
      var card := pool.faces[idx];
      var repeat := FindRepeat(card.displayName);
      if repeat.Some? {
        pool.AdoptWatermark(cards[repeat.value], card.watermark);
        return;
      }
      var o := CheckForManualArtistOverride(settings.manualArtistOverrides, e.name, card.face);
      if o.Some? && card.face == o.value.cardFace {
        pool.CorrectArtist(idx, o.value.artist);
      }
      cards := cards + [idx];
      BackfillPair(k);
    }

    /** One turn of the faces loop of AddCard: the CardData constructor called for face `i`. */
    static method BuildFace(e: CatalogEntry, settings: Configuration.Settings, layout: Cards.CardLayout, i: nat)
      returns (c: Cards.Card)
      requires i < |e.cardFaces| && layout == GetCardLayout(e.layout)
      ensures c == BuiltFace(e, settings, i)
    {
      var face := FaceAt(i);
      c := Cards.NewCard(e.name, e.cardFaces[i].manaCost, ArtSourceFileName(e.name, face, settings.artFileExtension),
                         e.cardFaces[i].artist, face, layout, TemplateFor(face, e.keywords, layout),
                         e.cardFaces[i].watermark);
      IsBuiltFace(e, settings, i, c);
    }

    /** The faces loop of AddCard: one face is built per element of the entry's face list
        into a two-slot array, so a third face fails, and so does a missing second one when
        the two are linked. */
    static method BuildFaces(e: CatalogEntry, settings: Configuration.Settings) returns (built: Option<seq<Cards.Card>>)
      ensures built.Some? <==> |e.cardFaces| == 2
      ensures built.Some? ==> |built.value| == 2 && built.value[0] == BuiltFace(e, settings, 0)
      ensures built.Some? ==> built.value[1] == BuiltFace(e, settings, 1)
    {
      var layout := GetCardLayout(e.layout);
      var faces: seq<Cards.Card> := [];
      for i := 0 to |e.cardFaces|
        invariant |faces| == i <= 2
        invariant 0 < i ==> faces[0] == BuiltFace(e, settings, 0)
        invariant 1 < i ==> faces[1] == BuiltFace(e, settings, 1)
      {
        if i == 2 {
          return None;
        }
        if i == 0 {
          var front := BuildFace(e, settings, layout, 0);
          faces := [front];
        } else {
          var back := BuildFace(e, settings, layout, 1);
          faces := faces + [back];
          assert faces[1] == back;
        }
      }
      if |faces| < 2 {
        return None;
      }
      return Some(faces);
    }

    /** The pair joins the pool, each face pointing at the other, and each face goes
        through the loop in turn. */
    method AddPair(e: CatalogEntry, settings: Configuration.Settings, front: Cards.Card, back: Cards.Card)
      requires Valid() && FreshPair(front, back, e)
      modifies this, pool
      ensures pool.Valid()
      ensures Listed() == Processed(Processed(WithPair(old(Listed()), front, back), e, settings, |old(pool.faces)|, 0),
                                    e, settings, |old(pool.faces)|, 1)
    {
      ghost var before := Listed();
      var k := pool.AddPair(front, back);
      ghost var pair := Listed();
      assert pair == WithPair(before, front, back);
      for f := 0 to 2
        invariant pool.Valid() && k == |before.faces| && k % 2 == 0 && k + 1 < |pool.faces|
        invariant InRange(pool.faces, cards) && InRange(pair.faces, pair.cards)
        invariant Listed() == (if f == 0 then pair
                               else if f == 1 then Processed(pair, e, settings, k, 0)
                               else Processed(Processed(pair, e, settings, k, 0), e, settings, k, 1))
      {
        ProcessFace(e, settings, k, f);
      }
    }

    /** AddCard: an entry outside the card subset is ignored; an entry without exactly two
        faces fails (`ok` is false) before anything changes; otherwise the pair joins the
        pool and each face goes through the loop. */
    method AddCard(e: CatalogEntry, settings: Configuration.Settings) returns (ok: bool)
      requires Valid()
      modifies this, pool
      ensures Valid()
      ensures ok <==> AddEntry(old(Listed()), e, settings).Some?
      ensures Listed() == AddEntry(old(Listed()), e, settings).GetOr(old(Listed()))
    {
      if settings.useCardSubset && Text.ToLower(e.name) !in settings.cardSubset {
        return true;
      }
      var built := BuildFaces(e, settings);
      if built.None? {
        return false;
      }
      ghost var before := Listed();
      AddEntryWellFormed(before, e, settings);
      AddEntryUnfolds(before, e, settings);
      BuiltFacesFresh(e, settings);
      AddPair(e, settings, built.value[0], built.value[1]);
      return true;
    }

    /** ParseJson on a catalog already read into entries: every entry that passes the filter
        goes to AddCard, and a failing AddCard ends the parse. */
    method ParseJson(entries: seq<CatalogEntry>, settings: Configuration.Settings)
      requires Valid()
      modifies this, pool
      ensures Valid() && Listed() == ParseAll(old(Listed()), entries, settings)
    {
      for i := 0 to |entries|
        invariant Valid()
        invariant ParseAll(old(Listed()), entries, settings) == ParseAll(Listed(), entries[i..], settings)
      {
        assert entries[i..][1..] == entries[i + 1..];
        var legal := IsLegalEntry(entries[i], settings.illegalSetCodes);
        if legal {
          var ok := AddCard(entries[i], settings);
          if !ok {
            return;
          }
        }
      }
    }
  }
}
