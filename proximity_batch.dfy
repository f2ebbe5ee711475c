/** A batch of faces for one run of the renderer (ProximityBatch.cs): the deck line each face
    becomes, the bounded list of deck lines, and the reading of the renderer's output lines
    that names the faces it failed to render. */
module Batching {
  import opened Wrappers
  import Text
  import Cards
  import Configuration

  /** The number of faces at which a batch counts as full. */
  const MaxCardCount: nat := 20

  /** What precedes every override in a deck line. */
  const OverrideTemplate: string := " --override="

  // ---------------------------------------------------------------------------------------
  // The art path
  // ---------------------------------------------------------------------------------------

  /** Path.DirectorySeparatorChar on Windows, where the renderer's command file runs. */
  const DirectorySeparator: char := '\\'

  predicate IsSeparator(c: char) {
    c == '\\' || c == '/'
  }

  /** Path.IsPathRooted on Windows under .NET Core: a leading separator, or a drive letter
      followed by ':'. */
  predicate IsPathRooted(p: string) {
    (|p| >= 1 && IsSeparator(p[0]))
    || (|p| >= 2 && ('a' <= p[0] <= 'z' || 'A' <= p[0] <= 'Z') && p[1] == ':')
  }

  /** Path.Combine of two parts under .NET Core: an empty part is skipped, a rooted second
      part replaces the first, and a separator is inserted unless the first part already ends
      with one (a trailing ':' gets one too). */
  function Combine(a: string, b: string): string {
    if b == "" then a
    else if a == "" then b
    else if IsPathRooted(b) then b
    else if IsSeparator(a[|a| - 1]) then a + b
    else a + [DirectorySeparator] + b
  }

  /** A combined path ends with its second part. An empty second part leaves the first and a
      rooted one replaces it; otherwise the first part is kept and exactly one separator
      comes between the two, also after a trailing ':'. */
  lemma {:induction false} CombineParts(a: string, b: string)
    ensures var r := Combine(a, b);
      |r| >= |b| && r[|r| - |b|..] == b
      && (b == "" ==> r == a)
      && (IsPathRooted(b) ==> r == b)
      && (a != "" && b != "" && !IsPathRooted(b) ==>
            |a| + |b| <= |r| <= |a| + 1 + |b| && r[..|a|] == a && IsSeparator(r[|r| - |b| - 1]))
  {
  }

  /** The location of a face's art file as the deck line gives it: the art folder of the
      renderer's directory, with every backslash turned into a slash and every space into
      "%20". */
  function ArtPath(proximityDirectory: string, artFileName: string): (r: string)
    ensures '\\' !in r && ' ' !in r
  {
    var path := Combine(Combine(proximityDirectory, "art"), artFileName);
    var slashed := Text.ReplaceAll(path, "\\", "/");
    Text.ReplaceCharGone(path, '\\', "/");
    Text.ReplaceKeepsAbsent(slashed, " ", "%20", '\\');
    Text.ReplaceCharGone(slashed, ' ', "%20");
    Text.ReplaceAll(slashed, " ", "%20")
  }

  // ---------------------------------------------------------------------------------------
  // The deck line
  // ---------------------------------------------------------------------------------------

  /** One override of a deck line: the property it sets and the value it gives. */
  datatype Override = Override(key: string, value: string)

  /** The overridden properties, in the order a deck line lists them. */
  const OverrideOrder: seq<string> :=
    ["rarity", "colors", "proximity.mtg.color_count", "watermark", "artist", "image_uris.art_crop"]

  /** The six possible overrides of a face in the order a deck line lists them, each with
      the condition under which it is written. */
  function Candidates(c: Cards.Card, other: Cards.Card, settings: Configuration.Settings): (r: seq<(bool, Override)>)
    ensures |r| == |OverrideOrder| && forall i :: 0 <= i < |r| ==> r[i].1.key == OverrideOrder[i]
  {
    [(settings.IsProxyRarityOverrided(), Override("rarity", settings.proxyRarityOverride)),
     (Cards.NeedsColorOverride(c, other), Override("colors", "[\"" + c.color + "\"]")),
     (Cards.NeedsColorOverride(c, other), Override("proximity.mtg.color_count", Text.NatToString(c.colorCount))),
     (Cards.NeedsWatermarkOverride(c, other), Override("watermark", c.watermark)),
     (Cards.NeedsArtistOverride(c, other), Override("artist", "\"" + c.artist + "\"")),
     (Cards.NeedsArtOverride(c),
      Override("image_uris.art_crop", "\"\"file:///" + ArtPath(settings.proximityDirectory, c.artFileName) + "\"\""))]
  }

  /** The overrides whose condition holds, in order. */
  function Chosen(cands: seq<(bool, Override)>): seq<Override> {
    if cands == [] then []
    else (if cands[0].0 then [cands[0].1] else []) + Chosen(cands[1..])
  }

  /** The overrides a face gets. */
  function Overrides(c: Cards.Card, other: Cards.Card, settings: Configuration.Settings): seq<Override> {
    Chosen(Candidates(c, other, settings))
  }

  /** The text of one override after its template. */
  function Segment(o: Override): string {
    o.key + ":" + o.value
  }

  /** The overrides written one after the other, each after the template. */
  function Rendered(os: seq<Override>): string {
    if os == [] then "" else OverrideTemplate + Segment(os[0]) + Rendered(os[1..])
  }

  /** GenerateCardString: the deck line of a face, "1 " and the name followed by its
      overrides, or "" when the face does not validate. */
  function GenerateCardString(c: Cards.Card, other: Cards.Card, settings: Configuration.Settings): (r: string)
    ensures r == "" <==> !Cards.ValidateCard(c, other)
    ensures r != "" ==> Text.StartsWith(r, "1 " + c.name)
  {
    if Cards.ValidateCard(c, other) then
      var r := "1 " + c.name + Rendered(Overrides(c, other, settings));
      assert r[..|"1 " + c.name|] == "1 " + c.name;
      r
    else ""
  }

  /** Some override sets this property. */
  predicate HasKey(os: seq<Override>, key: string) {
    os != [] && (os[0].key == key || HasKey(os[1..], key))
  }

  /** Some candidate for this property has its condition. */
  predicate Offered(cands: seq<(bool, Override)>, key: string) {
    cands != [] && ((cands[0].0 && cands[0].1.key == key) || Offered(cands[1..], key))
  }

  /** A property is overridden exactly when some candidate for it has its condition. */
  lemma {:induction false} ChosenHasKey(cands: seq<(bool, Override)>, key: string)
    ensures HasKey(Chosen(cands), key) <==> Offered(cands, key)
    decreases |cands|
  {
    if cands != [] {
      ChosenHasKey(cands[1..], key);
      var r := Chosen(cands);
      if cands[0].0 {
        assert r == [cands[0].1] + Chosen(cands[1..]);
        assert r[0] == cands[0].1 && r[1..] == Chosen(cands[1..]);
        assert HasKey(r, key) <==> cands[0].1.key == key || HasKey(Chosen(cands[1..]), key);
      } else {
        assert r == Chosen(cands[1..]);
      }
    }
  }

  /** Each override of a deck line is there exactly when its condition holds. */
  lemma {:induction false} OverridesPresent(c: Cards.Card, other: Cards.Card, settings: Configuration.Settings)
    ensures var os := Overrides(c, other, settings);
      (HasKey(os, "rarity") <==> settings.IsProxyRarityOverrided())
      && (HasKey(os, "colors") <==> Cards.NeedsColorOverride(c, other))
      && (HasKey(os, "proximity.mtg.color_count") <==> Cards.NeedsColorOverride(c, other))
      && (HasKey(os, "watermark") <==> Cards.NeedsWatermarkOverride(c, other))
      && (HasKey(os, "artist") <==> Cards.NeedsArtistOverride(c, other))
      && (HasKey(os, "image_uris.art_crop") <==> Cards.NeedsArtOverride(c))
  {
    var cands := Candidates(c, other, settings);
    forall k | 0 <= k < |OverrideOrder|
      ensures HasKey(Chosen(cands), OverrideOrder[k]) <==> cands[k].0
    {
      ChosenHasKey(cands, OverrideOrder[k]);
      OfferedAt(cands, k);
    }
    assert OverrideOrder[0] == "rarity" && OverrideOrder[1] == "colors";
    assert OverrideOrder[2] == "proximity.mtg.color_count" && OverrideOrder[3] == "watermark";
    assert OverrideOrder[4] == "artist" && OverrideOrder[5] == "image_uris.art_crop";
  }

  /** When the candidates set the properties of the fixed order one by one, the property at
      position `k` is offered exactly when that candidate's condition holds. */
  lemma {:induction false} OfferedAt(cands: seq<(bool, Override)>, k: nat)
    requires |cands| == |OverrideOrder| && k < |cands|
    requires forall i :: 0 <= i < |cands| ==> cands[i].1.key == OverrideOrder[i]
    ensures Offered(cands, OverrideOrder[k]) <==> cands[k].0
  {
    OfferedIff(cands, OverrideOrder[k]);
    forall i | 0 <= i < |cands| && cands[i].1.key == OverrideOrder[k] ensures i == k {
      assert OverrideOrder[i] == OverrideOrder[k];
    }
  }

  /** Offered, as a search over the positions. */
  lemma {:induction false} OfferedIff(cands: seq<(bool, Override)>, key: string)
    ensures Offered(cands, key) <==> exists i :: 0 <= i < |cands| && cands[i].0 && cands[i].1.key == key
    decreases |cands|
  {
    if cands != [] {
      OfferedIff(cands[1..], key);
      if exists i :: 0 <= i < |cands[1..]| && cands[1..][i].0 && cands[1..][i].1.key == key {
        var i :| 0 <= i < |cands[1..]| && cands[1..][i].0 && cands[1..][i].1.key == key;
        assert cands[i + 1] == cands[1..][i];
      }
      if exists i :: 0 <= i < |cands| && cands[i].0 && cands[i].1.key == key {
        var i :| 0 <= i < |cands| && cands[i].0 && cands[i].1.key == key;
        if i > 0 {
          assert cands[1..][i - 1] == cands[i];
        }
      }
    }
  }

  /** The position of each property in the fixed order. */
  function KeyRank(key: string): nat {
    if key == "rarity" then 0
    else if key == "colors" then 1
    else if key == "proximity.mtg.color_count" then 2
    else if key == "watermark" then 3
    else if key == "artist" then 4
    else 5
  }

  /** The candidates' properties are among `keys`, and their ranks increase strictly and
      stay above `lo`. */
  predicate RankedAbove(cands: seq<(bool, Override)>, keys: seq<string>, rank: string -> nat, lo: int) {
    (forall i :: 0 <= i < |cands| ==> lo < rank(cands[i].1.key) && cands[i].1.key in keys)
    && forall i, j :: 0 <= i < j < |cands| ==> rank(cands[i].1.key) < rank(cands[j].1.key)
  }

  /** The overrides' properties are among `keys`, and their ranks increase strictly and stay
      above `lo`. */
  predicate Ranked(os: seq<Override>, keys: seq<string>, rank: string -> nat, lo: int) {
    (forall m :: 0 <= m < |os| ==> lo < rank(os[m].key) && os[m].key in keys)
    && forall m, n :: 0 <= m < n < |os| ==> rank(os[m].key) < rank(os[n].key)
  }

  /** Choosing keeps the properties, their bound and their order. */
  lemma {:induction false} ChosenRanked(cands: seq<(bool, Override)>, keys: seq<string>, rank: string -> nat, lo: int)
    requires RankedAbove(cands, keys, rank, lo)
    ensures Ranked(Chosen(cands), keys, rank, lo)
    decreases |cands|
  {
    if cands != [] {
      var first := rank(cands[0].1.key);
      assert RankedAbove(cands[1..], keys, rank, first) by {
        forall i | 0 <= i < |cands[1..]| ensures cands[1..][i] == cands[i + 1] {
        }
      }
      ChosenRanked(cands[1..], keys, rank, first);
      var rest := Chosen(cands[1..]);
      if cands[0].0 {
        ConsRanked(cands[0].1, rest, keys, rank, lo);
      } else {
        assert Chosen(cands) == rest;
      }
    }
  }

  /** An override ranked above `lo` put before overrides ranked above it keeps the order. */
  lemma {:induction false} ConsRanked(o: Override, rest: seq<Override>, keys: seq<string>, rank: string -> nat, lo: int)
    requires lo < rank(o.key) && o.key in keys && Ranked(rest, keys, rank, rank(o.key))
    ensures Ranked([o] + rest, keys, rank, lo)
  {
    var r := [o] + rest;
    forall m | 1 <= m < |r| ensures r[m] == rest[m - 1] {
    }
    forall m, n | 0 <= m < n < |r| ensures rank(r[m].key) < rank(r[n].key) {
      assert r[n] == rest[n - 1];
    }
  }

  /** Each property's position in the fixed order is its rank. */
  lemma {:induction false} KeyRankOrder(i: nat)
    requires i < |OverrideOrder|
    ensures KeyRank(OverrideOrder[i]) == i
  {
  }

  /** Candidates that set the properties of the fixed order one by one are ranked. */
  lemma {:induction false} InOrderRanked(cands: seq<(bool, Override)>)
    requires |cands| == |OverrideOrder|
    requires forall i :: 0 <= i < |cands| ==> cands[i].1.key == OverrideOrder[i]
    ensures RankedAbove(cands, OverrideOrder, KeyRank, -1)
  {
    var rank: string -> nat := KeyRank;
    forall i | 0 <= i < |cands| ensures -1 < rank(cands[i].1.key) && cands[i].1.key in OverrideOrder {
      KeyRankOrder(i);
      assert rank(cands[i].1.key) == KeyRank(OverrideOrder[i]);
    }
    forall i, j | 0 <= i < j < |cands| ensures rank(cands[i].1.key) < rank(cands[j].1.key) {
      KeyRankOrder(i);
      KeyRankOrder(j);
      assert rank(cands[i].1.key) == KeyRank(OverrideOrder[i]);
      assert rank(cands[j].1.key) == KeyRank(OverrideOrder[j]);
    }
  }

  /** The overrides of a deck line follow the fixed order, so none is repeated, and each
      sets one of the six properties. */
  lemma {:induction false} OverridesOrdered(c: Cards.Card, other: Cards.Card, settings: Configuration.Settings)
    ensures var os := Overrides(c, other, settings);
      (forall m :: 0 <= m < |os| ==> os[m].key in OverrideOrder)
      && forall m, n :: 0 <= m < n < |os| ==> KeyRank(os[m].key) < KeyRank(os[n].key)
  {
    var cands := Candidates(c, other, settings);
    InOrderRanked(cands);
    ChosenRanked(cands, OverrideOrder, KeyRank, -1);
  }

  /** The segments of a list of overrides. */
  function Segments(os: seq<Override>): (r: seq<string>) {
    seq(|os|, i requires 0 <= i < |os| => Segment(os[i]))
  }

  /** The overrides written out are the template followed by their segments joined by it. */
  lemma {:induction false} RenderedIsJoin(os: seq<Override>)
    requires os != []
    ensures Rendered(os) == OverrideTemplate + Text.Join(Segments(os), OverrideTemplate)
    decreases |os|
  {
    var rest := os[1..];
    assert Segments(os) == [Segment(os[0])] + Segments(rest);
    if rest == [] {
      assert Segments(os) == [Segment(os[0])];
    } else {
      RenderedIsJoin(rest);
      Text.JoinCons(Segment(os[0]), Segments(rest), OverrideTemplate);
    }
  }

  /** A head followed by the overrides written out is the head and the segments joined by
      the template. */
  lemma {:induction false} RenderedJoin(head: string, os: seq<Override>)
    ensures head + Rendered(os) == Text.Join([head] + Segments(os), OverrideTemplate)
  {
    if os == [] {
      assert [head] + Segments(os) == [head];
    } else {
      RenderedIsJoin(os);
      Text.JoinCons(head, Segments(os), OverrideTemplate);
    }
  }

  /** Reading one override back: the property up to the first ':' and the value after it. */
  function ParseSegment(s: string): Option<Override> {
    match Text.IndexOf(s, ":")
    case None => None
    case Some(k) => Some(Override(s[..k], s[k + 1..]))
  }

  /** Reading a deck line back: the part before the first template, and the overrides after
      each template. */
  function ParseCardString(line: string): (string, seq<Option<Override>>) {
    var parts := Text.Split(line, OverrideTemplate);
    (parts[0], seq(|parts| - 1, i requires 0 <= i < |parts| - 1 => ParseSegment(parts[i + 1])))
  }

  /** No override value contains '='. */
  predicate PlainValues(os: seq<Override>) {
    forall i :: 0 <= i < |os| ==> '=' !in os[i].value
  }

  /** An override reads back as itself when its property has no ':'. */
  lemma {:induction false} ParseSegmentOf(o: Override)
    requires ':' !in o.key
    ensures ParseSegment(Segment(o)) == Some(o)
  {
    var s := Segment(o);
    assert Text.OccursAt(s, ":", |o.key|);
    forall j: nat | j < |o.key| ensures !Text.OccursAt(s, ":", j) {
      assert s[j] == o.key[j];
    }
    Text.IndexOfIs(s, ":", |o.key|);
    assert s[..|o.key|] == o.key;
    assert s[|o.key| + 1..] == o.value;
  }

  /** No property or value contains '='. */
  predicate PlainOverrides(os: seq<Override>) {
    forall i :: 0 <= i < |os| ==> '=' !in os[i].key && '=' !in os[i].value
  }

  /** The segments of overrides without '=' hold none either. */
  lemma {:induction false} SegmentsPlain(os: seq<Override>)
    requires PlainOverrides(os)
    ensures forall i :: 0 <= i < |Segments(os)| ==> '=' !in Segments(os)[i]
  {
    forall i | 0 <= i < |os| ensures '=' !in Segments(os)[i] {
      assert Segments(os)[i] == os[i].key + ":" + os[i].value;
    }
  }

  /** A line that splits into the head and the segments reads back as the head and the
      overrides, when no property contains ':'. */
  lemma {:induction false} ParseParts(line: string, head: string, os: seq<Override>)
    requires Text.Split(line, OverrideTemplate) == [head] + Segments(os)
    requires forall i :: 0 <= i < |os| ==> ':' !in os[i].key
    ensures ParseCardString(line) == (head, seq(|os|, i requires 0 <= i < |os| => Some(os[i])))
  {
    var parts := [head] + Segments(os);
    var read := ParseCardString(line);
    assert read.0 == head && |read.1| == |os|;
    forall i | 0 <= i < |os| ensures read.1[i] == Some(os[i]) {
      assert parts[i + 1] == Segment(os[i]);
      ParseSegmentOf(os[i]);
    }
    assert read.1 == seq(|os|, i requires 0 <= i < |os| => Some(os[i]));
  }

  /** A head without '=' followed by overrides without '=' splits at the templates into the
      head and the segments. */
  lemma {:induction false} RenderedSplit(head: string, os: seq<Override>)
    requires '=' !in head && PlainOverrides(os)
    ensures Text.Split(head + Rendered(os), OverrideTemplate) == [head] + Segments(os)
  {
    var parts := [head] + Segments(os);
    RenderedJoin(head, os);
    SegmentsPlain(os);
    TemplateHasEquals();
    assert forall i :: 0 <= i < |parts| ==> '=' !in parts[i] by {
      forall i | 1 <= i < |parts| ensures parts[i] == Segments(os)[i - 1] {
      }
    }
    Text.SplitJoin(parts, OverrideTemplate, '=');
  }

  /** A head and overrides written out read back as the head and the overrides, when no part
      contains '=' and no property contains ':'. */
  lemma {:induction false} LineRoundTrip(head: string, os: seq<Override>)
    requires '=' !in head && PlainOverrides(os)
    requires forall i :: 0 <= i < |os| ==> ':' !in os[i].key
    ensures ParseCardString(head + Rendered(os)) == (head, seq(|os|, i requires 0 <= i < |os| => Some(os[i])))
  {
    RenderedSplit(head, os);
    ParseParts(head + Rendered(os), head, os);
  }

  /** The template ends in '='. */
  lemma {:induction false} TemplateHasEquals()
    ensures '=' in OverrideTemplate
  {
    assert OverrideTemplate[11] == '=';
  }

  /** Every property of the fixed order is free of ':' and '='. */
  lemma {:induction false} OrderKeysPlain(key: string)
    requires key in OverrideOrder
    ensures ':' !in key && '=' !in key
  {
  }

  /** A valid face's deck line reads back as "1 ", its name and its overrides, when neither
      the name nor any override value contains '='. */
  lemma {:induction false} CardStringRoundTrip(c: Cards.Card, other: Cards.Card, settings: Configuration.Settings)
    requires Cards.ValidateCard(c, other) && '=' !in c.name && PlainValues(Overrides(c, other, settings))
    ensures var os := Overrides(c, other, settings);
      ParseCardString(GenerateCardString(c, other, settings))
      == ("1 " + c.name, seq(|os|, i requires 0 <= i < |os| => Some(os[i])))
  {
    var os := Overrides(c, other, settings);
    OverridesOrdered(c, other, settings);
    forall i | 0 <= i < |os| ensures ':' !in os[i].key && '=' !in os[i].key {
      OrderKeysPlain(os[i].key);
    }
    assert '=' !in "1 " + c.name;
    LineRoundTrip("1 " + c.name, os);
  }

  // ---------------------------------------------------------------------------------------
  // Reading the renderer's output
  // ---------------------------------------------------------------------------------------

  /** A non-empty output line that mentions "failed" in any case. */
  predicate IsFailureLine(data: string) {
    data != "" && Text.Contains(Text.ToLower(data), "failed")
  }

  /** Every word followed by one space. */
  function SpacedWords(ws: seq<string>): string {
    if ws == [] then "" else SpacedWords(ws[..|ws| - 1]) + ws[|ws| - 1] + " "
  }

  /** The name a failure line reports: the fifth through the second-to-last of its
      space-separated tokens, each followed by a space, the whole trimmed; none when the
      line is not a failure line or has fewer than five tokens. */
  function FailedCardName(data: string): (r: Option<string>)
    ensures r.Some? <==> IsFailureLine(data) && |Text.Tokens(data)| >= 5
  {
    var tokens := Text.Tokens(data);
    if IsFailureLine(data) && |tokens| >= 5 then Some(Text.Trim(SpacedWords(tokens[4..|tokens| - 1])))
    else None
  }

  /** No character of the word is white space. */
  predicate Solid(w: string) {
    w != "" && forall i :: 0 <= i < |w| ==> !Text.IsWhiteSpace(w[i])
  }

  /** Words followed by spaces are the words joined by spaces, plus one. */
  lemma {:induction false} SpacedWordsJoin(ws: seq<string>)
    requires |ws| >= 1
    ensures SpacedWords(ws) == Text.Join(ws, " ") + " "
    decreases |ws|
  {
    var init := ws[..|ws| - 1];
    Text.JoinSnoc(init, ws[|ws| - 1], " ");
    assert init + [ws[|ws| - 1]] == ws;
    if |ws| > 1 {
      SpacedWordsJoin(init);
    }
  }

  /** Solid words joined by spaces start and end with a character that is not white space. */
  lemma {:induction false} JoinEdges(ws: seq<string>)
    requires |ws| >= 1 && forall i :: 0 <= i < |ws| ==> Solid(ws[i])
    ensures var j := Text.Join(ws, " ");
      j != "" && !Text.IsWhiteSpace(j[0]) && !Text.IsWhiteSpace(j[|j| - 1])
    decreases |ws|
  {
    var j := Text.Join(ws, " ");
    if |ws| > 1 {
      var init := ws[..|ws| - 1];
      var last := ws[|ws| - 1];
      JoinEdges(init);
      Text.JoinSnoc(init, last, " ");
      assert init + [last] == ws;
      assert j == Text.Join(init, " ") + " " + last;
      assert j[0] == Text.Join(init, " ")[0];
      assert j[|j| - 1] == last[|last| - 1];
    }
  }

  /** When the name's tokens hold no white space, the name reported is those tokens joined
      by single spaces. */
  lemma {:induction false} FailedCardNameJoins(data: string)
    requires IsFailureLine(data) && |Text.Tokens(data)| >= 6
    requires var t := Text.Tokens(data); forall i :: 4 <= i < |t| - 1 ==> Solid(t[i])
    ensures var t := Text.Tokens(data); FailedCardName(data) == Some(Text.Join(t[4..|t| - 1], " "))
  {
    var t := Text.Tokens(data);
    var ws := t[4..|t| - 1];
    assert forall i :: 0 <= i < |ws| ==> Solid(ws[i]) by {
      forall i | 0 <= i < |ws| ensures ws[i] == t[i + 4] {
      }
    }
    TrimSpacedWords(ws);
  }

  /** Solid words followed by spaces and trimmed are the words joined by single spaces. */
  lemma {:induction false} TrimSpacedWords(ws: seq<string>)
    requires |ws| >= 1 && forall i :: 0 <= i < |ws| ==> Solid(ws[i])
    ensures Text.Trim(SpacedWords(ws)) == Text.Join(ws, " ")
  {
    SpacedWordsJoin(ws);
    Text.TrimAppendSpace(Text.Join(ws, " "));
    JoinEdges(ws);
    Text.TrimNoEdges(Text.Join(ws, " "));
  }

  /** A failure line made of four header words, the words of a name and a closing word
      reports that name, its words joined by single spaces. */
  lemma {:induction false} FailureLineRoundTrip(header: seq<string>, name: seq<string>, last: string)
    requires |header| == 4 && |name| >= 1
    requires forall i :: 0 <= i < |header| ==> Solid(header[i])
    requires forall i :: 0 <= i < |name| ==> Solid(name[i])
    requires Solid(last)
    requires IsFailureLine(Text.Join(header + name + [last], " "))
    ensures FailedCardName(Text.Join(header + name + [last], " ")) == Some(Text.Join(name, " "))
  {
    var words := header + name + [last];
    forall i | 0 <= i < |words| ensures words[i] != "" && ' ' !in words[i] {
      assert Solid(words[i]);
      assert Text.IsWhiteSpace(' ');
    }
    Text.TokensOfJoin(words);
    assert words[4..|words| - 1] == name;
    FailedCardNameJoins(Text.Join(words, " "));
  }

  // ---------------------------------------------------------------------------------------
  // The batch
  // ---------------------------------------------------------------------------------------

  /** The deck file's text: every line followed by the line break. */
  function DeckText(lines: seq<string>, newline: string): string {
    if lines == [] then "" else DeckText(lines[..|lines| - 1], newline) + lines[|lines| - 1] + newline
  }

  /** The deck text is the lines and a final empty piece joined by the line break. */
  lemma {:induction false} DeckTextJoin(lines: seq<string>, newline: string)
    ensures DeckText(lines, newline) == Text.Join(lines + [""], newline)
    decreases |lines|
  {
    if lines != [] {
      var init, last := lines[..|lines| - 1], lines[|lines| - 1];
      assert lines == init + [last];
      DeckTextJoin(init, newline);
      Text.JoinSnoc(lines, "", newline);
      Text.JoinSnoc(init, last, newline);
      Text.JoinSnoc(init, "", newline);
      assert DeckText(lines, newline) == Text.Join(init + [""], newline) + last + newline;
      assert Text.Join(lines + [""], newline) == Text.Join(lines, newline) + newline;
    }
  }

  /** A deck text splits back into its lines (and the empty piece after the last break) when
      some character of the line break occurs in no line. */
  lemma {:induction false} DeckTextLines(lines: seq<string>, newline: string, c: char)
    requires c in newline && forall i :: 0 <= i < |lines| ==> c !in lines[i]
    ensures Text.Split(DeckText(lines, newline), newline) == lines + [""]
  {
    DeckTextJoin(lines, newline);
    Text.SplitJoin(lines + [""], newline, c);
  }

  /** ProximityBatch: the batch's name and renderer file, its deck lines (one per face added)
      and the number of failure lines its run reported. */
  class ProximityBatch {
    const name: string
    const proximityFile: string
    var cardCount: nat
    var deckLines: seq<string>
    var failedRenderCount: nat

    /** The count is the number of deck lines, none of them empty. */
    ghost predicate Valid()
      reads this`cardCount, this`deckLines
    {
      cardCount == |deckLines| && forall i :: 0 <= i < |deckLines| ==> deckLines[i] != ""
    }

    /** A name or renderer file that is missing stays empty, which leaves the batch unable
        to run. */
    constructor (name: string, prox: string)
      ensures Valid() && this.name == name && proximityFile == prox
      ensures cardCount == 0 && deckLines == [] && failedRenderCount == 0
    {
      this.name := name;
      proximityFile := prox;
      cardCount := 0;
      deckLines := [];
      failedRenderCount := 0;
    }

    /** The batch holds as many faces as one run of the renderer takes. */
    function IsFull(): (full: bool)
      reads this`cardCount, this`deckLines
      ensures Valid() ==> (full <==> |deckLines| >= MaxCardCount)
    {
      cardCount >= MaxCardCount
    }

    /** The batch can be run: it has a name, a renderer file and at least one deck line. */
    function IsBatchFunctional(): (ok: bool)
      reads this`cardCount, this`deckLines
      ensures Valid() ==> (ok <==> name != "" && proximityFile != "" && deckLines != [])
    {
      name != "" && proximityFile != "" && cardCount > 0
    }

    /** The deck file's text with the platform's line break. */
    function DeckContents(newline: string): string
      reads this`deckLines
    {
      DeckText(deckLines, newline)
    }

    /** AddCard: a face that validates adds its deck line and one to the count, whether or
        not the batch is full; any other face leaves the batch as it was. */
    method AddCard(c: Cards.Card, other: Cards.Card, settings: Configuration.Settings)
      requires Valid()
      modifies this`cardCount, this`deckLines
      ensures Valid() && failedRenderCount == old(failedRenderCount)
      ensures Cards.ValidateCard(c, other) ==>
        deckLines == old(deckLines) + [GenerateCardString(c, other, settings)] && cardCount == old(cardCount) + 1
      ensures !Cards.ValidateCard(c, other) ==> deckLines == old(deckLines) && cardCount == old(cardCount)
    {
      var cardString := GenerateCardString(c, other, settings);
      if cardString != "" {
        deckLines := deckLines + [cardString];
        cardCount := cardCount + 1;
      }
    }

    /** HandleProximityOutput: a failure line adds one to the failure count, and the name it
        reports, if any, is returned for the manager to handle. */
    method HandleProximityOutput(data: string) returns (failed: Option<string>)
      modifies this`failedRenderCount
      ensures failedRenderCount == old(failedRenderCount) + (if IsFailureLine(data) then 1 else 0)
      ensures cardCount == old(cardCount) && deckLines == old(deckLines)
      ensures failed == FailedCardName(data)
    {
      if data != "" && Text.Contains(Text.ToLower(data), "failed") {
        failedRenderCount := failedRenderCount + 1;
        var splitArgs := Text.Tokens(data);
        if |splitArgs| >= 5 {
          var failedCardName := "";
          for i := 4 to |splitArgs| - 1
            invariant failedCardName == SpacedWords(splitArgs[4..i])
          {
            assert splitArgs[4..i + 1][..i - 4] == splitArgs[4..i];
            failedCardName := failedCardName + splitArgs[i] + " ";
          }
          return Some(Text.Trim(failedCardName));
        }
      }
      return None;
    }
  }
}
