/** Collection of the rendered proxies (ArtManager.cs). The renderer leaves numbered image
    files such as "12 Fire.png" in an images/fronts and an images/backs folder. For each
    file the ordinal and the card name are read from its name. A file whose card is known
    is either deleted, when its ordinal has the parity of the wrong face, or copied to the
    Proxies folder under the card's name. Afterwards the cards whose display name has no
    image in the Proxies folder are counted.

    The file system is modelled as two sets of names: the paths of the image files that
    exist, and the file names present in the Proxies folder. */
module Reconciliation {
  import opened Wrappers
  import Text
  import Cards

  /** The extension every proxy image is expected to carry. */
  const ExpectedExtension: string := ".png"

  /** Path.DirectorySeparatorChar on Windows, where the application runs. */
  const DirectorySeparator: char := '\\'

  // ---------------------------------------------------------------------------------------
  // File names
  // ---------------------------------------------------------------------------------------

  /** A one-character string holds `c` exactly when `c` occurs in it. */
  lemma {:induction false} NotContainsChar(x: string, c: char)
    requires !Text.Contains(x, [c])
    ensures c !in x
  {
    Text.ContainsIff(x, [c]);
    if c in x {
      var i :| 0 <= i < |x| && x[i] == c;
      assert x[i..i + 1] == [c];
      assert Text.OccursAt(x, [c], i);
    }
  }

  /** The last component of a path: what follows its last directory separator. */
  function GetFileName(fullPath: string): (r: string)
    ensures DirectorySeparator !in r
  {
    var parts := Text.Split(fullPath, [DirectorySeparator]);
    Text.SplitPiecesFree(fullPath, [DirectorySeparator]);
    NotContainsChar(parts[|parts| - 1], DirectorySeparator);
    parts[|parts| - 1]
  }

  /** The file name of a path built from separator-free directories and a name is that name. */
  lemma {:induction false} FileNameOfPath(dirs: seq<string>, name: string)
    requires DirectorySeparator !in name
    requires forall i :: 0 <= i < |dirs| ==> DirectorySeparator !in dirs[i]
    ensures GetFileName(Text.Join(dirs + [name], [DirectorySeparator])) == name
  {
    var parts := dirs + [name];
    assert forall i :: 0 <= i < |parts| ==> DirectorySeparator !in parts[i] by {
      forall i | 0 <= i < |parts| ensures DirectorySeparator !in parts[i] {
        if i < |dirs| { assert parts[i] == dirs[i]; }
      }
    }
    Text.SplitJoin(parts, [DirectorySeparator], DirectorySeparator);
  }

  // ---------------------------------------------------------------------------------------
  // Reading the ordinal and the card name out of a file name
  // ---------------------------------------------------------------------------------------

  /** What a proxy file name says: the render ordinal (0 when it does not parse) and the
      card name. */
  datatype Candidate = Candidate(ordinal: int, cardName: string)

  /** Every piece followed by one space, the way the card name is accumulated. */
  function SpacedTail(pieces: seq<string>): string {
    if pieces == [] then ""
    else SpacedTail(pieces[..|pieces| - 1]) + pieces[|pieces| - 1] + " "
  }

  /** The accumulated pieces are the pieces joined with spaces, plus a trailing space. */
  lemma {:induction false} SpacedTailJoin(pieces: seq<string>)
    requires |pieces| >= 1
    ensures SpacedTail(pieces) == Text.Join(pieces, " ") + " "
    decreases |pieces|
  {
    var init := pieces[..|pieces| - 1];
    var x := pieces[|pieces| - 1];
    assert pieces == init + [x];
    Text.JoinSnoc(init, x, " ");
    if init != [] {
      SpacedTailJoin(init);
    }
  }

  /** The ordinal token with every 'a' and 'b' removed and trimmed, parsed as Int32.TryParse
      does; a failed parse leaves 0. */
  function OrdinalOf(token: string): (n: int)
    ensures Text.Int32Min <= n <= Text.Int32Max
  {
    var number := Text.Trim(Text.ReplaceAll(Text.ReplaceAll(token, "a", ""), "b", ""));
    Text.TryParseInt(number).GetOr(0)
  }

  /** The card name: the pieces after the first one, each followed by a space, with ".png"
      removed and trimmed. */
  function CardNameOf(pieces: seq<string>): string
    requires |pieces| >= 1
  {
    Text.Trim(Text.ReplaceAll(SpacedTail(pieces[1..]), ExpectedExtension, ""))
  }

  /** The file name split at its spaces: the first piece gives the ordinal and the others
      the card name. */
  function Parse(fileName: string): Candidate {
    var pieces := Text.Split(fileName, " ");
    Candidate(OrdinalOf(pieces[0]), CardNameOf(pieces))
  }

  /** Splits a file name into its ordinal and its card name, accumulating the name piece by
      piece. */
  method ParseFileName(fileName: string) returns (c: Candidate)
    ensures c == Parse(fileName)
  {
    var pieces := Text.Split(fileName, " ");
    var cardName := "";
    var i := 1;
    while i < |pieces|
      invariant 1 <= i <= |pieces|
      invariant cardName == SpacedTail(pieces[1..i])
    {
      assert pieces[1..i + 1][..i - 1] == pieces[1..i];
      cardName := cardName + pieces[i] + " ";
      i := i + 1;
    }
    assert pieces[1..i] == pieces[1..];
    cardName := Text.Trim(Text.ReplaceAll(cardName, ExpectedExtension, ""));
    var number := Text.Trim(Text.ReplaceAll(Text.ReplaceAll(pieces[0], "a", ""), "b", ""));
    var ordinal := Text.TryParseInt(number).GetOr(0);
    c := Candidate(ordinal, cardName);
  }

  /** The name of the file the renderer writes: the ordinal, an optional run of 'a'/'b'
      marks, a space, the card name and the extension. */
  function ProxyFileName(ordinal: nat, marks: string, name: string): string {
    Text.NatToString(ordinal) + marks + " " + name + ExpectedExtension
  }

  /** Removing the marks from a rendered ordinal token gives back its digits. */
  lemma {:induction false} OrdinalOfMarked(ordinal: nat, marks: string)
    requires ordinal <= Text.Int32Max
    requires forall i :: 0 <= i < |marks| ==> marks[i] == 'a' || marks[i] == 'b'
    ensures OrdinalOf(Text.NatToString(ordinal) + marks) == ordinal
  {
    var digits := Text.NatToString(ordinal);
    assert 'a' !in digits && 'b' !in digits by {
      forall i | 0 <= i < |digits| ensures digits[i] != 'a' && digits[i] != 'b' {
        assert Text.IsDigit(digits[i]);
      }
    }
    MarksStripped(digits, marks);
    DigitsTrimmed(digits);
    Text.ParseNatToString(ordinal);
  }

  /** Dropping every 'a' and then every 'b' from a token leaves its digits. */
  lemma {:induction false} MarksStripped(digits: string, marks: string)
    requires 'a' !in digits && 'b' !in digits
    requires forall i :: 0 <= i < |marks| ==> marks[i] == 'a' || marks[i] == 'b'
    ensures Text.ReplaceAll(Text.ReplaceAll(digits + marks, "a", ""), "b", "") == digits
  {
    Text.ReplaceCharIsWithout(digits + marks, 'a');
    Text.WithoutAppend(digits, marks, 'a');
    Text.WithoutAbsent(digits, 'a');
    var bsOnly := Text.Without(marks, 'a');
    Text.ReplaceCharIsWithout(digits + bsOnly, 'b');
    Text.WithoutAppend(digits, bsOnly, 'b');
    Text.WithoutAbsent(digits, 'b');
    MarksVanish(marks);
    assert digits + [] == digits;
  }

  /** A string of digits has no white space to trim. */
  lemma {:induction false} DigitsTrimmed(digits: string)
    requires forall i :: 0 <= i < |digits| ==> Text.IsDigit(digits[i])
    ensures Text.Trim(digits) == digits
  {
    if digits != [] {
      assert Text.IsDigit(digits[0]) && Text.IsDigit(digits[|digits| - 1]);
    }
    Text.TrimNoEdges(digits);
  }

  /** A string of 'a' and 'b' marks is empty once both letters are dropped. */
  lemma {:induction false} MarksVanish(marks: string)
    requires forall i :: 0 <= i < |marks| ==> marks[i] == 'a' || marks[i] == 'b'
    ensures Text.Without(Text.Without(marks, 'a'), 'b') == []
    decreases |marks|
  {
    if marks != [] {
      var rest := Text.Without(marks[1..], 'a');
      MarksVanish(marks[1..]);
      if marks[0] == 'a' {
        assert Text.Without(marks, 'a') == [] + rest;
        assert [] + rest == rest;
      } else {
        var w := ['b'] + rest;
        assert Text.Without(marks, 'a') == w;
        assert w[1..] == rest;
        assert Text.Without(w, 'b') == [] + Text.Without(rest, 'b');
      }
    }
  }

  /** Reading back the name the renderer gives a proxy yields its ordinal and its card name,
      for a card name with no white space at its ends and no ".png" of its own. */
  lemma {:induction false} ParseProxyFileName(ordinal: nat, marks: string, name: string)
    requires 0 < ordinal <= Text.Int32Max
    requires forall i :: 0 <= i < |marks| ==> marks[i] == 'a' || marks[i] == 'b'
    requires name == [] || (!Text.IsWhiteSpace(name[0]) && !Text.IsWhiteSpace(name[|name| - 1]))
    requires Text.IndexOf(name + ExpectedExtension, ExpectedExtension) == Some(|name|)
    ensures Parse(ProxyFileName(ordinal, marks, name)) == Candidate(ordinal, name)
  {
    var first := Text.NatToString(ordinal) + marks;
    var rest := name + ExpectedExtension;
    assert ProxyFileName(ordinal, marks, name) == first + " " + rest;
    OrdinalTokenHasNoSpace(ordinal, marks);
    Text.SplitCons(first, " ", rest, ' ');
    OrdinalOfMarked(ordinal, marks);
    CardNameOfProxy(first, name);
  }

  /** A rendered ordinal token holds no space. */
  lemma {:induction false} OrdinalTokenHasNoSpace(ordinal: nat, marks: string)
    requires forall i :: 0 <= i < |marks| ==> marks[i] == 'a' || marks[i] == 'b'
    ensures ' ' !in Text.NatToString(ordinal) + marks
  {
    var digits := Text.NatToString(ordinal);
    var first := digits + marks;
    forall i | 0 <= i < |first| ensures first[i] != ' ' {
      if i < |digits| { assert Text.IsDigit(digits[i]); } else { assert first[i] == marks[i - |digits|]; }
    }
  }

  /** The card name read from the pieces after the ordinal token is the rendered name. */
  lemma {:induction false} CardNameOfProxy(first: string, name: string)
    requires name == [] || (!Text.IsWhiteSpace(name[0]) && !Text.IsWhiteSpace(name[|name| - 1]))
    requires Text.IndexOf(name + ExpectedExtension, ExpectedExtension) == Some(|name|)
    ensures CardNameOf([first] + Text.Split(name + ExpectedExtension, " ")) == name
  {
    var rest := name + ExpectedExtension;
    var tail := Text.Split(rest, " ");
    assert ([first] + tail)[1..] == tail;
    SpacedTailJoin(tail);
    Text.JoinSplit(rest, " ");
    Text.RemoveFirstAtEnd(name, ExpectedExtension, " ");
    assert Text.ReplaceAll(" ", ExpectedExtension, "") == " ";
    Text.TrimAppendSpace(name);
    Text.TrimNoEdges(name);
  }

  // ---------------------------------------------------------------------------------------
  // Matching a card and deciding
  // ---------------------------------------------------------------------------------------

  /** DisplayName.ToLower() == cardName.ToLower(). */
  predicate SameName(displayName: string, cardName: string) {
    Text.ToLower(displayName) == Text.ToLower(cardName)
  }

  /** The first card, from position `k` on, whose display name matches case-insensitively. */
  function FindFrom(cards: seq<Cards.Card>, name: string, k: nat): (r: Option<nat>)
    requires k <= |cards|
    ensures r.Some? ==> k <= r.value < |cards| && SameName(cards[r.value].displayName, name)
    ensures r.Some? ==> forall j :: k <= j < r.value ==> !SameName(cards[j].displayName, name)
    ensures r.None? ==> forall j :: k <= j < |cards| ==> !SameName(cards[j].displayName, name)
    decreases |cards| - k
  {
    if k == |cards| then None
    else if SameName(cards[k].displayName, name) then Some(k)
    else FindFrom(cards, name, k + 1)
  }

  /** The position of the card FirstOrDefault picks for a name, if any matches. */
  function FindCard(cards: seq<Cards.Card>, name: string): Option<nat> {
    FindFrom(cards, name, 0)
  }

  /** Whether a render is discarded: even renders are wrong for a front face and odd ones
      for a back face. */
  predicate DeleteProxy(face: Cards.CardFace, ordinal: int) {
    (face == Cards.Front && ordinal % 2 == 0) || (face == Cards.Back && ordinal % 2 != 0)
  }

  /** A render is kept exactly when its parity is that of the face: odd for a front face,
      even for a back face. Of two consecutive renders of a face exactly one is kept, and
      every render is kept for exactly one of the two faces. */
  lemma {:induction false} DeleteProxyParity(face: Cards.CardFace, ordinal: int)
    ensures !DeleteProxy(face, ordinal) <==> (ordinal % 2 == 0 <==> face == Cards.Back)
    ensures DeleteProxy(face, ordinal) != DeleteProxy(face, ordinal + 1)
    ensures DeleteProxy(Cards.Front, ordinal) != DeleteProxy(Cards.Back, ordinal)
  {
  }

  // ---------------------------------------------------------------------------------------
  // Sweeping the image folders
  // ---------------------------------------------------------------------------------------

  /** The state of the sweep: the image files that exist, the files in the Proxies folder,
      and the processed and good-proxy counters. */
  datatype Sweep = Sweep(images: set<string>, proxies: set<string>, processed: nat, good: nat)

  /** One turn of the loop over the image files. */
  function Visit(cards: seq<Cards.Card>, s: Sweep, path: string): (r: Sweep)
    ensures r.images <= s.images && s.images - r.images <= {path}
    ensures s.proxies <= r.proxies
    ensures s.processed <= r.processed <= s.processed + 1
    ensures s.good <= r.good && r.good - s.good <= r.processed - s.processed
    ensures r.images == s.images || r.proxies == s.proxies
  {
    var fileName := GetFileName(path);
    if path !in s.images then s
    else if !Text.EndsWith(fileName, ExpectedExtension) then s.(processed := s.processed + 1)
    else
      var c := Parse(fileName);
      if c.ordinal <= 0 then s
      else match FindCard(cards, c.cardName)
        case None => s.(processed := s.processed + 1)
        case Some(k) =>
          if DeleteProxy(cards[k].face, c.ordinal) then
            s.(images := s.images - {path}, processed := s.processed + 1)
          else
            s.(proxies := s.proxies + {c.cardName + ExpectedExtension},
               processed := s.processed + 1, good := s.good + 1)
  }

  /** The loop over the image files, the fronts before the backs. */
  function VisitAll(cards: seq<Cards.Card>, s: Sweep, paths: seq<string>): Sweep {
    if paths == [] then s
    else Visit(cards, VisitAll(cards, s, paths[..|paths| - 1]), paths[|paths| - 1])
  }

  /** A file that is not a ".png" is counted but neither deleted nor copied. */
  lemma {:induction false} VisitForeign(cards: seq<Cards.Card>, s: Sweep, path: string)
    requires path in s.images && !Text.EndsWith(GetFileName(path), ExpectedExtension)
    ensures Visit(cards, s, path).images == s.images
    ensures Visit(cards, s, path).proxies == s.proxies
    ensures Visit(cards, s, path).processed == s.processed + 1
  {
  }

  /** A file whose name matches no card is neither deleted nor copied. */
  lemma {:induction false} VisitUnmatched(cards: seq<Cards.Card>, s: Sweep, path: string)
    requires FindCard(cards, Parse(GetFileName(path)).cardName).None?
    ensures Visit(cards, s, path).images == s.images
    ensures Visit(cards, s, path).proxies == s.proxies
  {
  }

  /** A file with a positive ordinal whose name matches a card of the face it is wrong
      for is deleted, and nothing is copied. */
  lemma {:induction false} VisitDeletes(cards: seq<Cards.Card>, s: Sweep, path: string, k: nat)
    requires path in s.images && Text.EndsWith(GetFileName(path), ExpectedExtension)
    requires Parse(GetFileName(path)).ordinal > 0
    requires FindCard(cards, Parse(GetFileName(path)).cardName) == Some(k)
    requires DeleteProxy(cards[k].face, Parse(GetFileName(path)).ordinal)
    ensures Visit(cards, s, path).images == s.images - {path}
    ensures Visit(cards, s, path).proxies == s.proxies
  {
  }

  /** A file with a positive ordinal whose name matches a card of the face it is right for
      is copied to the Proxies folder under the card name, and nothing is deleted. */
  lemma {:induction false} VisitCopies(cards: seq<Cards.Card>, s: Sweep, path: string, k: nat)
    requires path in s.images && Text.EndsWith(GetFileName(path), ExpectedExtension)
    requires Parse(GetFileName(path)).ordinal > 0
    requires FindCard(cards, Parse(GetFileName(path)).cardName) == Some(k)
    requires !DeleteProxy(cards[k].face, Parse(GetFileName(path)).ordinal)
    ensures Visit(cards, s, path).images == s.images
    ensures Visit(cards, s, path).proxies
            == s.proxies + {Parse(GetFileName(path)).cardName + ExpectedExtension}
  {
  }

  /** Every proxy name comes from a card: its stem matches one case-insensitively. */
  ghost predicate ProxyOfSomeCard(cards: seq<Cards.Card>, proxy: string) {
    Text.EndsWith(proxy, ExpectedExtension)
    && exists k :: 0 <= k < |cards|
         && SameName(cards[k].displayName, proxy[..|proxy| - |ExpectedExtension|])
  }

  /** Across the whole sweep, only visited paths are deleted, every new proxy belongs to a
      card, and no more files are counted good than processed. */
  lemma {:induction false} VisitAllBounds(cards: seq<Cards.Card>, s: Sweep, paths: seq<string>)
    ensures var r := VisitAll(cards, s, paths);
            r.images <= s.images && (forall p :: p in s.images - r.images ==> p in paths)
            && s.proxies <= r.proxies
            && (forall p :: p in r.proxies - s.proxies ==> ProxyOfSomeCard(cards, p))
            && s.processed <= r.processed <= s.processed + |paths|
            && s.good <= r.good && r.good - s.good <= r.processed - s.processed
    decreases |paths|
  {
    if paths != [] {
      var init := paths[..|paths| - 1];
      var path := paths[|paths| - 1];
      var m := VisitAll(cards, s, init);
      VisitAllBounds(cards, s, init);
      VisitNewProxy(cards, m, path);
      assert forall p :: p in init ==> p in paths;
    }
  }

  /** The proxy a single turn adds belongs to a card. */
  lemma {:induction false} VisitNewProxy(cards: seq<Cards.Card>, s: Sweep, path: string)
    ensures forall p :: p in Visit(cards, s, path).proxies - s.proxies ==> ProxyOfSomeCard(cards, p)
  {
    var r := Visit(cards, s, path);
    forall p | p in r.proxies - s.proxies ensures ProxyOfSomeCard(cards, p) {
      var fileName := GetFileName(path);
      var c := Parse(fileName);
      var k := FindCard(cards, c.cardName).value;
      assert p == c.cardName + ExpectedExtension;
      assert p[..|p| - |ExpectedExtension|] == c.cardName;
      assert SameName(cards[k].displayName, c.cardName);
    }
  }

  // ---------------------------------------------------------------------------------------
  // Counting the cards without a proxy
  // ---------------------------------------------------------------------------------------

  /** The card has an image in the Proxies folder under its display name. */
  predicate HasProxy(card: Cards.Card, proxies: set<string>) {
    card.displayName + ExpectedExtension in proxies
  }

  /** The number of cards without an image in the Proxies folder. */
  function MissingCount(cards: seq<Cards.Card>, proxies: set<string>): nat {
    if cards == [] then 0
    else MissingCount(cards[..|cards| - 1], proxies) + (if HasProxy(cards[|cards| - 1], proxies) then 0 else 1)
  }

  /** No card is missing exactly when every card has its proxy, and never more are missing
      than there are cards. */
  lemma {:induction false} MissingNone(cards: seq<Cards.Card>, proxies: set<string>)
    ensures MissingCount(cards, proxies) <= |cards|
    ensures MissingCount(cards, proxies) == 0 <==> forall i :: 0 <= i < |cards| ==> HasProxy(cards[i], proxies)
    decreases |cards|
  {
    if cards != [] {
      var init := cards[..|cards| - 1];
      MissingNone(init, proxies);
      assert forall i :: 0 <= i < |init| ==> init[i] == cards[i];
    }
  }

  /** More proxies never leave more cards missing. */
  lemma {:induction false} MissingAntitone(cards: seq<Cards.Card>, p1: set<string>, p2: set<string>)
    requires p1 <= p2
    ensures MissingCount(cards, p2) <= MissingCount(cards, p1)
    decreases |cards|
  {
    if cards != [] {
      MissingAntitone(cards[..|cards| - 1], p1, p2);
    }
  }

  // ---------------------------------------------------------------------------------------
  // The file system and the manager
  // ---------------------------------------------------------------------------------------

  /** The parts of the file system the sweep touches. */
  class Folders {
    /** The paths of the image files that exist. */
    var images: set<string>
    /** The file names in the Proxies folder. */
    var proxies: set<string>

    constructor (images: set<string>, proxies: set<string>)
      ensures this.images == images && this.proxies == proxies
    {
      this.images := images;
      this.proxies := proxies;
    }
  }

  class ArtManager {
    const cards: seq<Cards.Card>

    constructor (cards: seq<Cards.Card>)
      ensures this.cards == cards
    {
      this.cards := cards;
    }

    /** Visits every image of the fronts folder and then of the backs folder, deleting the
        renders of the wrong parity and copying the others to the Proxies folder, and then
        counts the cards left without a proxy. */
    method CleanProxies(fs: Folders, fronts: seq<string>, backs: seq<string>)
      returns (processed: nat, good: nat, failed: nat)
      modifies fs
      ensures var s := VisitAll(cards, Sweep(old(fs.images), old(fs.proxies), 0, 0), fronts + backs);
              fs.images == s.images && fs.proxies == s.proxies
              && processed == s.processed && good == s.good
      ensures failed == MissingCount(cards, fs.proxies)
    {
      var paths := fronts + backs;
      ghost var s0 := Sweep(fs.images, fs.proxies, 0, 0);
      processed, good := 0, 0;
      for i := 0 to |paths|
        invariant VisitAll(cards, s0, paths[..i]) == Sweep(fs.images, fs.proxies, processed, good)
      {
        assert paths[..i + 1][..i] == paths[..i];
        processed, good := VisitFile(fs, paths[i], processed, good);
      }
      assert paths[..|paths|] == paths;
      failed := 0;
      for i := 0 to |cards|
        invariant failed == MissingCount(cards[..i], fs.proxies)
      {
        assert cards[..i + 1][..i] == cards[..i];
        if cards[i].displayName + ExpectedExtension !in fs.proxies {
          failed := failed + 1;
        }
      }
      assert cards[..|cards|] == cards;
    }

    /** One image file: skipped when it is gone, counted when it is not a ".png", and
        otherwise deleted or copied according to the card it names. */
    method VisitFile(fs: Folders, path: string, processed0: nat, good0: nat)
      returns (processed: nat, good: nat)
      modifies fs
      ensures fs.images == Visit(cards, Sweep(old(fs.images), old(fs.proxies), processed0, good0), path).images
      ensures fs.proxies == Visit(cards, Sweep(old(fs.images), old(fs.proxies), processed0, good0), path).proxies
      ensures processed == Visit(cards, Sweep(old(fs.images), old(fs.proxies), processed0, good0), path).processed
      ensures good == Visit(cards, Sweep(old(fs.images), old(fs.proxies), processed0, good0), path).good
    {
      processed, good := processed0, good0;
      var fileName := GetFileName(path);
      if path in fs.images {
        if !Text.EndsWith(fileName, ExpectedExtension) {
          processed := processed + 1;
          return;
        }
        var c := ParseFileName(fileName);
        if c.ordinal > 0 {
          var found := FindCard(cards, c.cardName);
          if found.Some? {
            if DeleteProxy(cards[found.value].face, c.ordinal) {
              fs.images := fs.images - {path};
            } else {
              fs.proxies := fs.proxies + {c.cardName + ExpectedExtension};
              good := good + 1;
            }
          }
          processed := processed + 1;
        }
      }
    }
  }
}
