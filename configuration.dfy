/** The program's settings (ConfigManager.cs): the art file extension, the rarity override,
    the illegal set codes, the card subset and the manual artist overrides, each normalised
    from the values read out of the configuration file. */
module Configuration {
  import Text
  import Cards

  /** One manual artist override: the lower-cased full card name, the face and the artist. */
  datatype ManualArtistOverride = ManualArtistOverride(cardName: string, cardFace: Cards.CardFace, artist: string)

  /** One entry of the configured override list: the texts of its `card`, `artist` and `face`
      properties. */
  datatype RawOverride = RawOverride(card: string, artist: string, face: string)

  /** The settings every other component reads. */
  datatype Settings = Settings(
    scryfallPath: string,
    proximityDirectory: string,
    artFileExtension: string,
    proxyRarityOverride: string,
    deleteBadFaces: bool,
    illegalSetCodes: seq<string>,
    useCardSubset: bool,
    cardSubset: seq<string>,
    manualArtistOverrides: seq<ManualArtistOverride>)
  {
    /** A rarity override is configured. */
    predicate IsProxyRarityOverrided() {
      proxyRarityOverride != ""
    }
  }

  const DefaultArtFileExtension: string := ".jpg"

  /** The art file extensions the renderer accepts. */
  predicate IsArtExtension(e: string) {
    e == ".jpg" || e == ".jpeg" || e == ".png"
  }

  const ValidRarities: seq<string> := ["common", "uncommon", "rare", "mythic"]

  /** The card-name marker every subset entry and every override must hold. */
  const DualNameMarker: string := "//"

  /** The extension kept after parsing: the configured one, lower-cased, when it is valid,
      the default otherwise. */
  function NormalizeArtExtension(raw: string): (r: string)
    ensures IsArtExtension(r)
    ensures IsArtExtension(Text.ToLower(raw)) ==> r == Text.ToLower(raw)
    ensures !IsArtExtension(Text.ToLower(raw)) ==> r == DefaultArtFileExtension
  {
    var e := Text.ToLower(raw);
    if IsArtExtension(e) then e else DefaultArtFileExtension
  }

  /** The rarity kept after parsing: the configured one, lower-cased, when it is a valid
      rarity; the empty string (no override) otherwise. */
  function NormalizeRarity(raw: string): (r: string)
    ensures r == "" || r in ValidRarities
    ensures Text.ToLower(raw) in ValidRarities ==> r == Text.ToLower(raw)
    ensures Text.ToLower(raw) !in ValidRarities ==> r == ""
  {
    var e := Text.ToLower(raw);
    if e == "" then "" else if e !in ValidRarities then "" else e
  }

  /** Every string lower-cased, in order. */
  function LowerAll(xs: seq<string>): (r: seq<string>)
    ensures |r| == |xs| && forall i :: 0 <= i < |xs| ==> r[i] == Text.ToLower(xs[i])
  {
    seq(|xs|, i requires 0 <= i < |xs| => Text.ToLower(xs[i]))
  }

  /** The lower-cased entries that hold "//", in order. */
  function SubsetEntries(raw: seq<string>): (r: seq<string>)
    ensures forall i :: 0 <= i < |r| ==> Text.Contains(r[i], DualNameMarker)
  {
    if raw == [] then []
    else
      var e := Text.ToLower(raw[0]);
      (if Text.Contains(e, DualNameMarker) then [e] else []) + SubsetEntries(raw[1..])
  }

  /** A name is in the subset exactly when some configured entry lower-cases to it and it
      holds "//". */
  lemma {:induction false} InSubsetEntries(raw: seq<string>, name: string)
    ensures name in SubsetEntries(raw)
        <==> Text.Contains(name, DualNameMarker)
             && exists i :: 0 <= i < |raw| && Text.ToLower(raw[i]) == name
  {
    if raw != [] {
      InSubsetEntries(raw[1..], name);
      if exists i :: 0 <= i < |raw[1..]| && Text.ToLower(raw[1..][i]) == name {
        var i :| 0 <= i < |raw[1..]| && Text.ToLower(raw[1..][i]) == name;
        assert Text.ToLower(raw[i + 1]) == name;
      }
      if exists i :: 0 <= i < |raw| && Text.ToLower(raw[i]) == name {
        var i :| 0 <= i < |raw| && Text.ToLower(raw[i]) == name;
        if i > 0 {
          assert Text.ToLower(raw[1..][i - 1]) == name;
        }
      }
    }
  }

  /** The face an override names: the front only for "front" in any case, the back for
      anything else. */
  function FaceOf(face: string): Cards.CardFace {
    if Text.ToLower(face) == "front" then Cards.Front else Cards.Back
  }

  /** An override is kept when its lower-cased card name is non-empty and holds "//" and its
      artist is non-empty. */
  predicate Accepted(o: RawOverride) {
    var card := Text.ToLower(o.card);
    card != "" && Text.Contains(card, DualNameMarker) && o.artist != ""
  }

  /** The override kept for an accepted entry. */
  function Converted(o: RawOverride): ManualArtistOverride {
    ManualArtistOverride(Text.ToLower(o.card), FaceOf(o.face), o.artist)
  }

  /** An override that could have come from the configuration. */
  predicate WellFormedOverride(o: ManualArtistOverride) {
    o.cardName != "" && Text.Contains(o.cardName, DualNameMarker) && o.artist != ""
    && o.cardName == Text.ToLower(o.cardName)
  }

  /** The overrides kept, in order. */
  function KeptOverrides(raw: seq<RawOverride>): (r: seq<ManualArtistOverride>)
    ensures |r| <= |raw|
    ensures forall i :: 0 <= i < |r| ==> WellFormedOverride(r[i])
  {
    if raw == [] then []
    else
      (if Accepted(raw[0]) then LowerIsLower(raw[0].card); [Converted(raw[0])] else [])
      + KeptOverrides(raw[1..])
  }

  /** Lower-casing twice is lower-casing once. */
  lemma {:induction false} LowerIsLower(s: string)
    ensures Text.ToLower(Text.ToLower(s)) == Text.ToLower(s)
  {
  }

  /** An override is kept exactly when it converts an accepted entry. */
  lemma {:induction false} InKeptOverrides(raw: seq<RawOverride>, o: ManualArtistOverride)
    ensures o in KeptOverrides(raw)
        <==> exists i :: 0 <= i < |raw| && Accepted(raw[i]) && Converted(raw[i]) == o
  {
    if raw != [] {
      InKeptOverrides(raw[1..], o);
      if exists i :: 0 <= i < |raw[1..]| && Accepted(raw[1..][i]) && Converted(raw[1..][i]) == o {
        var i :| 0 <= i < |raw[1..]| && Accepted(raw[1..][i]) && Converted(raw[1..][i]) == o;
        assert raw[i + 1] == raw[1..][i];
      }
      if exists i :: 0 <= i < |raw| && Accepted(raw[i]) && Converted(raw[i]) == o {
        var i :| 0 <= i < |raw| && Accepted(raw[i]) && Converted(raw[i]) == o;
        if i > 0 {
          assert raw[1..][i - 1] == raw[i];
        }
      }
    }
  }

  lemma {:induction false} SubsetEntriesStep(raw: seq<string>, i: nat)
    requires i < |raw|
    ensures !Text.Contains(Text.ToLower(raw[i]), DualNameMarker)
        ==> SubsetEntries(raw[i..]) == SubsetEntries(raw[i + 1..])
    ensures Text.Contains(Text.ToLower(raw[i]), DualNameMarker)
        ==> SubsetEntries(raw[i..]) == [Text.ToLower(raw[i])] + SubsetEntries(raw[i + 1..])
  {
    assert raw[i..][1..] == raw[i + 1..];
  }

  lemma {:induction false} KeptOverridesStep(raw: seq<RawOverride>, i: nat)
    requires i < |raw|
    ensures !Accepted(raw[i]) ==> KeptOverrides(raw[i..]) == KeptOverrides(raw[i + 1..])
    ensures Accepted(raw[i]) ==> KeptOverrides(raw[i..]) == [Converted(raw[i])] + KeptOverrides(raw[i + 1..])
  {
    assert raw[i..][1..] == raw[i + 1..];
  }

  /** The static settings of ConfigManager.cs, held as the fields of one object. */
  class ConfigManager {
    var scryfallPath: string
    var proximityDirectory: string
    var artFileExtension: string
    var proxyRarityOverride: string
    var deleteBadFaces: bool
    var illegalSetCodes: seq<string>
    var useCardSubset: bool
    var cardSubset: seq<string>
    var manualArtistOverrides: seq<ManualArtistOverride>

    /** The settings before any option is parsed: the lists start empty. */
    constructor (scryfallPath: string, proximityDirectory: string)
      ensures this.scryfallPath == scryfallPath && this.proximityDirectory == proximityDirectory
      ensures artFileExtension == "" && proxyRarityOverride == "" && !deleteBadFaces
      ensures illegalSetCodes == [] && !useCardSubset && cardSubset == []
      ensures manualArtistOverrides == []
    {
      this.scryfallPath := scryfallPath;
      this.proximityDirectory := proximityDirectory;
      artFileExtension := "";
      proxyRarityOverride := "";
      deleteBadFaces := false;
      illegalSetCodes := [];
      useCardSubset := false;
      cardSubset := [];
      manualArtistOverrides := [];
    }

    /** The current settings, as the other components read them. */
    function Current(): Settings
      reads this
    {
      Settings(scryfallPath, proximityDirectory, artFileExtension, proxyRarityOverride,
               deleteBadFaces, illegalSetCodes, useCardSubset, cardSubset, manualArtistOverrides)
    }

    /** Both paths were found in the settings the other components read. */
    function Valid(): (ok: bool)
      reads this
      ensures ok <==> Current().scryfallPath != "" && Current().proximityDirectory != ""
    {
      scryfallPath != "" && proximityDirectory != ""
    }

    /** A rarity override is configured, as the settings the other components read say. */
    function IsProxyRarityOverrided(): (r: bool)
      reads this
      ensures r <==> Current().IsProxyRarityOverrided()
    {
      proxyRarityOverride != ""
    }

    /** ParseArtExtension: the configured extension, lower-cased, or the default. */
    method ParseArtExtension(raw: string)
      modifies this
      ensures Current() == old(Current()).(artFileExtension := NormalizeArtExtension(raw))
    {
      artFileExtension := Text.ToLower(raw);
      if artFileExtension != ".jpg" && artFileExtension != ".jpeg" && artFileExtension != ".png" {
        artFileExtension := DefaultArtFileExtension;
      }
    }

    /** ParseRarityOverride: the configured rarity, lower-cased, or none when it is empty or
        not a valid rarity. */
    method ParseRarityOverride(raw: string)
      modifies this
      ensures Current() == old(Current()).(proxyRarityOverride := NormalizeRarity(raw))
      ensures IsProxyRarityOverrided() <==> Text.ToLower(raw) in ValidRarities
    {
      proxyRarityOverride := Text.ToLower(raw);
      if proxyRarityOverride == "" {
      } else if proxyRarityOverride !in ValidRarities {
        proxyRarityOverride := "";
      }
    }

    /** ParseProxyCleanup: whether bad proxy faces are deleted. */
    method ParseProxyCleanup(deleteBad: bool)
      modifies this
      ensures Current() == old(Current()).(deleteBadFaces := deleteBad)
    {
      deleteBadFaces := deleteBad;
    }

    /** ParseIllegalSetCodes: the list is cleared, then holds every configured code
        lower-cased, in order. */
    method ParseIllegalSetCodes(raw: seq<string>)
      modifies this
      ensures Current() == old(Current()).(illegalSetCodes := LowerAll(raw))
    {
      var codes: seq<string> := [];
      for i := 0 to |raw|
        invariant codes == LowerAll(raw[..i])
        modifies {}
      {
        codes := codes + [Text.ToLower(raw[i])];
        assert LowerAll(raw[..i + 1]) == LowerAll(raw[..i]) + [Text.ToLower(raw[i])];
      }
      assert raw[..|raw|] == raw;
      illegalSetCodes := codes;
    }

    /** ParseCardSubset: with subset mode on, the subset is cleared and then holds the
        lower-cased entries that contain "//", in order; with it off, the subset is left
        as it was. */
    method ParseCardSubset(use: bool, raw: seq<string>)
      modifies this
      ensures use ==> Current() == old(Current()).(useCardSubset := true, cardSubset := SubsetEntries(raw))
      ensures !use ==> Current() == old(Current()).(useCardSubset := false)
    {
      useCardSubset := use;
      if useCardSubset {
        var subset: seq<string> := [];
        for i := 0 to |raw|
          invariant subset + SubsetEntries(raw[i..]) == SubsetEntries(raw)
          modifies {}
        {
          var specified := Text.ToLower(raw[i]);
          SubsetEntriesStep(raw, i);
          if Text.Contains(specified, DualNameMarker) {
            assert (subset + [specified]) + SubsetEntries(raw[i + 1..])
                == subset + ([specified] + SubsetEntries(raw[i + 1..]));
            subset := subset + [specified];
          }
        }
        assert raw[|raw|..] == [];
        cardSubset := subset;
      }
    }

    /** ParseManualArtistOverrides: the list is cleared, then holds the accepted entries,
        converted, in order. */
    method ParseManualArtistOverrides(raw: seq<RawOverride>)
      modifies this
      ensures Current() == old(Current()).(manualArtistOverrides := KeptOverrides(raw))
    {
      var overrides: seq<ManualArtistOverride> := [];
      for i := 0 to |raw|
        invariant overrides + KeptOverrides(raw[i..]) == KeptOverrides(raw)
        modifies {}
      {
        KeptOverridesStep(raw, i);
        var card := Text.ToLower(raw[i].card);
        if card == "" {
          continue;
        } else if !Text.Contains(card, DualNameMarker) {
          continue;
        }
        var artist := raw[i].artist;
        if artist == "" {
          continue;
        }
        var face := Cards.Back;
        var faceString := Text.ToLower(raw[i].face);
        if faceString == "front" {
          face := Cards.Front;
        }
        var kept := ManualArtistOverride(card, face, artist);
        assert kept == Converted(raw[i]) && Accepted(raw[i]);
        assert (overrides + [kept]) + KeptOverrides(raw[i + 1..])
            == overrides + ([kept] + KeptOverrides(raw[i + 1..]));
        overrides := overrides + [kept];
      }
      assert raw[|raw|..] == [];
      manualArtistOverrides := overrides;
    }
  }

  /** Parsing the art extension again leaves it as it is. */
  lemma {:induction false} NormalizeArtExtensionIdempotent(raw: string)
    ensures NormalizeArtExtension(NormalizeArtExtension(raw)) == NormalizeArtExtension(raw)
  {
    var r := NormalizeArtExtension(raw);
    LowerIsLower(raw);
    assert Text.ToLower(DefaultArtFileExtension) == DefaultArtFileExtension;
  }

  /** Parsing the rarity again leaves it as it is. */
  lemma {:induction false} NormalizeRarityIdempotent(raw: string)
    ensures NormalizeRarity(NormalizeRarity(raw)) == NormalizeRarity(raw)
  {
    LowerIsLower(raw);
    assert Text.ToLower("") == "";
  }
}
