# HalfMagicProximity, modelled in Dafny

HalfMagicProximity turns the two-faced cards of a Scryfall catalog into "half" proxies. It
works in five steps:

1. It reads its settings (ConfigManager).
2. It filters the catalog down to the legal split and adventure cards and builds a
   `CardData` object for each face (CardManager, CardData).
3. It writes each face as one deck line and groups the lines into batches of at most 20.
4. It runs the external renderer, Proximity, on each batch, reads the renderer's output for
   failed faces and re-renders those faces in up to three retry batches (ProximityBatch,
   ProximityManager).
5. It sorts the numbered images the renderer produced. The wrong half of every card is
   deleted, and the right half is copied to the proxy folder (ArtManager).

The Dafny project has one module per source file, plus two support modules:

- `Cards` (`cards.dfy`) models `CardData.cs`: colour parsing, display names, validation, watermark and artist corrections; the faces live in a pool, in sibling pairs.
- `Configuration` (`configuration.dfy`) models `ConfigManager.cs`: how each option is normalised; the settings object with one method per option.
- `Catalog` (`catalog.dfy`) models `CardManager.cs`: the catalog filter, the face builder and the de-duplicating list of faces to render. It is specified by pure functions over a `Listing`; the `CardManager` class is proved to follow them.
- `Batching` (`proximity_batch.dfy`) models `ProximityBatch.cs`: the deck line of a face, the batch's deck list, and how a renderer output line names a failed face.
- `Orchestration` (`proximity_manager.dfy`) models `ProximityManager.cs`: sorting the faces into batches, running them, routing failures into rerender batches, and the bounded retry loop.
- `Reconciliation` (`art_manager.dfy`) models `ArtManager.cs`: parsing image file names, the keep-or-delete parity rule, the sweep over the image folders, and the count of cards left without a proxy.
- `Text` (`text.dfy`) models the .NET string operations the code relies on: `Split`, `Join`, `Trim`, `Replace`, `Contains`, `ToLower`/`ToUpper`, integer formatting and `int.TryParse`.
- `Wrappers` (`wrappers.dfy`) defines `Option`.

### How the program's objects become Dafny

- **Cards.** A `CardData` object becomes a `Cards.Card` value. A face's sibling (`OtherFace`)
  is an index into the pool that owns both faces: the front is at an even index `k` and the
  back at `k + 1`.
- **The list of faces to render.** `CardManager.Cards` is a sequence of positions in that
  pool. A correction made through a duplicate, such as `repeat.Watermark = ...`, updates the
  face that is already listed, as it does in the program.
- **Settings.** The static settings are the fields of `Configuration.ConfigManager`. The
  other components receive the `Configuration.Settings` value it produces.
- **The renderer.** The external renderer is a function parameter of the manager. Given a
  batch's name and deck lines, it returns the lines the renderer prints, or `None` when the
  renderer's files cannot be found.
- **Folders.** The image folders are sets of file paths, and the proxy folder is a set of file names.

## Model

| member | source | states |
|---|---|---|
| `Cards.CorrectColorOrder` | HalfMagicProximity/CardData.cs:86-103 | "UG" becomes "GU", "WG" becomes "GW" and "WR" becomes "RW". Every other colour is kept, and the result always holds the same symbols as the input. |
| `Cards.CorrectColorOrderIdempotent` | HalfMagicProximity/CardData.cs:86-103 | Reordering an already reordered colour changes nothing. |
| `Cards.GetColorData` | HalfMagicProximity/CardData.cs:67-84 | The loop collects the colour `ColorOf(manaCost)`, and the count is its length. The colour is canonical: either each of W, U, B, R, G at most once, in that order, and never "UG", "WG" or "WR", or one of the reordered pairs GU, GW, RW. |
| `Cards.InColorOf` | HalfMagicProximity/CardData.cs:69-79 | A colour symbol is in the colour exactly when it occurs in the mana cost in either case, since the cost is upper-cased first. |
| `Cards.Collected` | HalfMagicProximity/CardData.cs:71-79 | The symbols collected from the first k of W, U, B, R, G all occur in the mana cost, in that order, each once. |
| `Cards.NullStartCollect` | HalfMagicProximity/CardData.cs:71-79 | Accumulating from a null start stays null until a symbol is found, and then holds the collected symbols. |
| `Cards.ColorOfCanonical` | HalfMagicProximity/CardData.cs:71-81 | Every colour derived from a mana cost is canonical: in W, U, B, R, G order without repeats, except that "UG", "WG" and "WR" always come out as "GU", "GW" and "RW". |
| `Cards.ColorDependsOnlyOnSymbols` | HalfMagicProximity/CardData.cs:69-81 | Two mana costs that hold the same colour symbols, in either case, give the same colour. |
| `Cards.ColorOfIdempotent` | HalfMagicProximity/CardData.cs:67-84 | Deriving the colour of a colour gives that colour back. |
| `Cards.ColorCountAsWritten` | HalfMagicProximity/CardData.cs:67-84 | The code as written starts the colour as null. Whenever it produces a count, the count is the length of the corrected colour. |
| `Cards.ColorlessCostFails` | HalfMagicProximity/CardData.cs:77-83 | For the mana cost "{3}", the code as written fails to produce a count. The corrected code gives the empty colour with count 0. |
| `Cards.AsWrittenFailsIffColorless` | HalfMagicProximity/CardData.cs:67-84 | The code as written fails exactly for mana costs without any colour symbol. |
| `Cards.DisplayNameOfDual` | HalfMagicProximity/CardData.cs:37-41 | For a name "a // b" (no '/' in a or b), the front's display name is the trimmed a and the back's is the trimmed b. |
| `Cards.DisplayNameOfSingle` | HalfMagicProximity/CardData.cs:37-41 | A name without " // " gives its trimmed self as the display name of either face. |
| `Cards.NewCard` | HalfMagicProximity/CardData.cs:31-61 | The constructor stores each argument, derives the display name, colour and count, and starts with no manual artist. |
| `Cards.ValidateCardIff` | HalfMagicProximity/CardData.cs:121-156 | When the count matches the colour, a face validates exactly when it has a name, a watermark if its sibling has one, an artist if the artists differ or were corrected, and art if it is a back face or a split card. |
| `Cards.ValidateCard` | HalfMagicProximity/CardData.cs:121-156 | A face is valid exactly when it has a name and every override it needs has its data: the colour count for a colour override, a watermark for a watermark override, an artist for an artist override and an art file for an art override. The order of the checks does not matter. |
| `Cards.NeedsColorOverride` | HalfMagicProximity/CardData.cs:26 | Colours are overridden exactly when the two faces' colours differ, whichever face asks. Faces that need no override hold the same colour symbols. |
| `Cards.NeedsArtOverride` | HalfMagicProximity/CardData.cs:27 | Only the front face of a card that is not split goes without an art override. |
| `Cards.NeedsArtistOverride` | HalfMagicProximity/CardData.cs:28 | A hand-corrected artist is always written. Otherwise the artist is written exactly when the faces' artists differ. |
| `Cards.NeedsWatermarkOverride` | HalfMagicProximity/CardData.cs:29 | A watermark is written exactly when the face has one once its sibling's has been copied onto it. |
| `Cards.CorrectedWatermark` | HalfMagicProximity/CardData.cs:112-119 | An existing watermark is never replaced. An empty watermark takes the sibling's, so it stays empty only when both are empty. |
| `Cards.CorrectedWatermarkIdempotent` | HalfMagicProximity/CardData.cs:112-119 | Correcting the watermark twice is the same as correcting it once. |
| `Cards.BackfillSatisfiesWatermarkCheck` | HalfMagicProximity/CardManager.cs:219-227 | After the front and then the back are corrected from each other, neither face fails the watermark check of validation. |
| `Cards.SiblingFlagsAgree` | HalfMagicProximity/CardData.cs:26-29 | In a well-formed pool, siblings point at each other. The colour-override and watermark-override flags are the same seen from either face. |
| `Cards.FacePool.AddPair` | HalfMagicProximity/CardManager.cs:151-163 | A front and a back are appended as a pair at an even position, each pointing at the other. |
| `Cards.FacePool.CorrectArtist` | HalfMagicProximity/CardData.cs:105-110 | Only that face's artist changes, it is marked manual, and the face then needs an artist override. |
| `Cards.FacePool.CorrectWatermark` | HalfMagicProximity/CardData.cs:112-119 | Only that face's watermark changes, to the corrected one: an empty watermark takes the sibling's, and an existing one is kept. |
| `Cards.FacePool.AdoptWatermark` | HalfMagicProximity/CardManager.cs:171-175 | Only that face's watermark changes: an empty one takes the given watermark, and an existing one is kept. |
| `Cards.WithWatermark` | HalfMagicProximity/CardManager.cs:170-174 | Only the given face changes, and only in its watermark. An empty watermark takes the given one, and an existing one is kept. |
| `Configuration.NormalizeArtExtension` | HalfMagicProximity/ConfigManager.cs:301-313 | The result is always a valid extension: the lower-cased input when it is ".jpg", ".jpeg" or ".png", otherwise ".jpg". |
| `Configuration.NormalizeArtExtensionIdempotent` | HalfMagicProximity/ConfigManager.cs:301-313 | Normalising a normalised extension changes nothing. |
| `Configuration.NormalizeRarity` | HalfMagicProximity/ConfigManager.cs:318-334 | The result is the lower-cased input when that is a valid rarity, and empty otherwise. |
| `Configuration.NormalizeRarityIdempotent` | HalfMagicProximity/ConfigManager.cs:318-334 | Normalising a normalised rarity changes nothing. |
| `Configuration.LowerAll` | HalfMagicProximity/ConfigManager.cs:351-362 | Each illegal set code is kept in order, lower-cased. |
| `Configuration.SubsetEntries` | HalfMagicProximity/ConfigManager.cs:367-397 | Every kept subset entry holds "//". |
| `Configuration.InSubsetEntries` | HalfMagicProximity/ConfigManager.cs:374-389 | A name is in the subset exactly when it holds "//" and is the lower-cased form of a configured entry. |
| `Configuration.KeptOverrides` | HalfMagicProximity/ConfigManager.cs:403-445 | At most one override is kept per entry. Each kept override has a non-empty, lower-cased card name holding "//" and a non-empty artist. |
| `Configuration.InKeptOverrides` | HalfMagicProximity/ConfigManager.cs:403-445 | An override is kept exactly when some entry is accepted and converts to it. Conversion lower-cases the card and defaults the face to the back. |
| `Configuration.ConfigManager.constructor` | HalfMagicProximity/ConfigManager.cs:13-32 | The two paths are the ones found. Every other setting starts empty or false. The strings that C# leaves null start as "" instead; every use of them tests for null-or-empty or compares with a literal, so the two behave the same. |
| `Configuration.ConfigManager.Valid` | HalfMagicProximity/ConfigManager.cs:32 | The settings are usable exactly when the settings the other components read hold both paths. |
| `Configuration.ConfigManager.IsProxyRarityOverrided` | HalfMagicProximity/ConfigManager.cs:20 | The manager reports a rarity override exactly when the settings the other components read hold one. |
| `Configuration.ConfigManager.ParseArtExtension` | HalfMagicProximity/ConfigManager.cs:301-313 | Only the art extension changes, to the normalised one. |
| `Configuration.ConfigManager.ParseRarityOverride` | HalfMagicProximity/ConfigManager.cs:318-334 | Only the rarity override changes. Afterwards an override is in force exactly when the lower-cased input is a valid rarity. |
| `Configuration.ConfigManager.ParseProxyCleanup` | HalfMagicProximity/ConfigManager.cs:339-346 | Only the delete-bad-faces flag changes. |
| `Configuration.ConfigManager.ParseIllegalSetCodes` | HalfMagicProximity/ConfigManager.cs:351-362 | The illegal set codes are replaced by the lower-cased configured list, and nothing else changes. |
| `Configuration.ConfigManager.ParseCardSubset` | HalfMagicProximity/ConfigManager.cs:367-397 | The subset flag is set. When it is on, the subset is replaced by the kept entries; when it is off, the old subset is left as it was. |
| `Configuration.ConfigManager.ParseManualArtistOverrides` | HalfMagicProximity/ConfigManager.cs:403-445 | The overrides are replaced by the kept ones, and nothing else changes. |
| `Catalog.FindIllegalSetCode` | HalfMagicProximity/CardManager.cs:61-71 | The loop reports a set code illegal exactly when some configured code occurs in it. |
| `Catalog.IsLegalEntry` | HalfMagicProximity/CardManager.cs:34-71 | An entry passes the filter exactly when all of these hold: its layout is split or adventure, it is not a promo, it has no frame effects, it is not alchemy, its border is black, and its set code holds no illegal code. |
| `Catalog.GetCardLayout` | HalfMagicProximity/CardManager.cs:326-336 | The layout is never None. It is Adventure exactly for "adventure"; anything else, including a missing layout, gives Split. |
| `Catalog.TemplateFor` | HalfMagicProximity/CardManager.cs:139-149 | A front is M15. A back is DoubleFeature exactly when the lower-cased keywords hold "aftermath". Otherwise a back is Sketch when the layout is adventure, and M15 when it is not. |
| `Catalog.ArtSourceFileName` | HalfMagicProximity/CardManager.cs:242-249 | The name ends with the configured extension. Before the extension there is no space, no apostrophe and no upper-case letter. |
| `Catalog.SplitDual` | HalfMagicProximity/CardManager.cs:244 | Splitting "a // b" at '/' gives three pieces: "a ", "" and " b". |
| `Catalog.ArtSourceFileNameOfDual` | HalfMagicProximity/CardManager.cs:242-249 | The front's art file comes from the first half of "a // b" and the back's from the last. In each, spaces and apostrophes are removed and the rest is lower-cased. |
| `Catalog.FirstOverride` | HalfMagicProximity/CardManager.cs:231-240 | A found override is configured and matches the lower-cased name and the face. None is found only when no override matches. |
| `Catalog.FirstOverrideIsFirst` | HalfMagicProximity/CardManager.cs:231-240 | The override found is the first one in the list that matches. |
| `Catalog.CheckForManualArtistOverride` | HalfMagicProximity/CardManager.cs:231-240 | The loop returns that first matching override. |
| `Catalog.FirstWithDisplayName` | HalfMagicProximity/CardManager.cs:168 | A found repeat is a listed face with that display name. None is found only when no listed face has it. |
| `Catalog.FirstWithDisplayNameIsFirst` | HalfMagicProximity/CardManager.cs:168 | The repeat found is the first listed face with that display name. |
| `Catalog.Processed` | HalfMagicProximity/CardManager.cs:165-228 | One turn of the faces loop keeps the pool's size and every listed position inside it. |
| `Catalog.ProcessedGrew` | HalfMagicProximity/CardManager.cs:165-228 | One turn of the faces loop keeps the pool's identities, may fill watermarks, and may correct only that face's artist. It appends at most that face. The list is unchanged exactly when the face repeats a listed display name. |
| `Catalog.ProcessedRepeat` | HalfMagicProximity/CardManager.cs:166-178 | A face whose display name is already listed is skipped. The list is unchanged, and the only change to the pool is that the listed face takes the skipped face's watermark when its own is empty. |
| `Catalog.ProcessedKeepsName` | HalfMagicProximity/CardManager.cs:165-195 | After one turn of the faces loop, the face's display name is listed, either as the repeat or as the face just added. |
| `Catalog.ProcessedBalance` | HalfMagicProximity/CardManager.cs:204-227 | When the face is listed, both faces of its pair end with a watermark each or with none. |
| `Catalog.ProcessedArtist` | HalfMagicProximity/CardManager.cs:190-195 | A face that is listed carries the first matching override's artist, marked manual, or its own artist. |
| `Catalog.ProcessedWellFormed` | HalfMagicProximity/CardManager.cs:165-228 | One turn keeps the pool paired and the list ordered without two faces of the same display name. |
| `Catalog.BuiltFacesFresh` | HalfMagicProximity/CardManager.cs:139-160 | The two faces built for an entry are a front and a back of the entry's name with their colour counts matching. |
| `Catalog.AddEntry` | HalfMagicProximity/CardManager.cs:125-229 | The face count error happens exactly for an entry inside the subset whose face count is not 2. An entry outside the subset changes nothing. |
| `Catalog.AddEntryWellFormed` | HalfMagicProximity/CardManager.cs:125-229 | Adding an entry keeps the listing well formed. |
| `Catalog.AddEntryShape` | HalfMagicProximity/CardManager.cs:125-229 | Adding an entry appends its built front and back as a pair. Earlier faces only gain watermarks, the old list is a prefix of the new one, and at most the two new faces are listed, both under the entry's name. |
| `Catalog.AddEntryKeepsNames` | HalfMagicProximity/CardManager.cs:165-195 | After an entry is added, both of its display names are listed. |
| `Catalog.AddEntryKeptFaces` | HalfMagicProximity/CardManager.cs:190-227 | Each new face that is listed carries the expected artist, and its pair is balanced in watermarks. |
| `Catalog.AddEntryUnfolds` | HalfMagicProximity/CardManager.cs:125-229 | An entry inside the subset with two faces appends its built pair and runs the faces loop on the front, then on the back. |
| `Catalog.ParseAll` | HalfMagicProximity/CardManager.cs:30-75 | Parsing the catalog keeps every listed position inside the pool. |
| `Catalog.ParseAllWellFormed` | HalfMagicProximity/CardManager.cs:30-75 | After the whole catalog, the pool still holds front-back pairs that point at each other, and no two listed faces share a display name. |
| `Catalog.ParseAllGrows` | HalfMagicProximity/CardManager.cs:30-75 | The pool only grows and the old list is a prefix of the new one. Every face added belongs to an entry that passes the filter and is inside the subset. |
| `Catalog.CardManager.Kept` | HalfMagicProximity/CardManager.cs:12 | The listed faces, in order, have distinct display names. |
| `Catalog.CardManager.constructor` | HalfMagicProximity/CardManager.cs:12 | A new manager starts with an empty pool and no listed face. |
| `Catalog.CardManager.FindRepeat` | HalfMagicProximity/CardManager.cs:168 | The search returns the first listed face with that display name. |
| `Catalog.CardManager.BackfillPair` | HalfMagicProximity/CardManager.cs:219-227 | The pair's empty watermarks are filled from each other, front first. |
| `Catalog.CardManager.ProcessFace` | HalfMagicProximity/CardManager.cs:165-228 | The listing becomes one turn of the faces loop applied to the old listing. |
| `Catalog.CardManager.BuildFace` | HalfMagicProximity/CardManager.cs:141-158 | The face built for position i is the `BuiltFace` of the entry: front for position 0, back otherwise, with the template chosen from the keywords and the layout. |
| `Catalog.CardManager.BuildFaces` | HalfMagicProximity/CardManager.cs:137-163 | Faces are built exactly when the entry lists two. Then they are the front and back `BuiltFace`s, in that order. |
| `Catalog.CardManager.AddPair` | HalfMagicProximity/CardManager.cs:151-228 | The pair joins the pool and both faces go through the faces loop. |
| `Catalog.CardManager.AddCard` | HalfMagicProximity/CardManager.cs:125-229 | The method succeeds exactly when the entry can be added, and the listing becomes the added one. On failure the listing is left as it was. |
| `Catalog.CardManager.ParseJson` | HalfMagicProximity/CardManager.cs:14-123 | The listing becomes the parse of the whole catalog, which stops at the first failing entry. |
| `Batching.ArtPath` | HalfMagicProximity/ProximityBatch.cs:280 | The art path holds no backslash and no space. |
| `Batching.CombineParts` | HalfMagicProximity/ProximityBatch.cs:280 | `Combine` is Path.Combine under .NET Core: the result ends with the second part. An empty second part leaves the first, and a rooted one replaces it. Otherwise the first part is kept and exactly one separator comes between them, including after a trailing ':'. |
| `Batching.Candidates` | HalfMagicProximity/ProximityBatch.cs:259-283 | There are six possible overrides, keyed in deck-line order: rarity, colors, color count, watermark, artist, art. |
| `Batching.GenerateCardString` | HalfMagicProximity/ProximityBatch.cs:251-291 | A line is empty exactly when the face fails validation. A non-empty line starts with "1 " and the full name. |
| `Batching.OverridesPresent` | HalfMagicProximity/ProximityBatch.cs:259-283 | Each override is written exactly when its condition holds: a rarity is configured, the colours differ (twice: colours and count), the watermark flag, the artist flag, the art flag. |
| `Batching.OverridesOrdered` | HalfMagicProximity/ProximityBatch.cs:255-283 | The overrides of a line appear in the fixed order, each at most once. |
| `Batching.CardStringRoundTrip` | HalfMagicProximity/ProximityBatch.cs:251-291 | Splitting a valid face's line at " --override=" gives back "1 name" and exactly the chosen overrides, each parsed back to its key and value. |
| `Batching.FailedCardName` | HalfMagicProximity/ProximityBatch.cs:98-119 | A name is reported exactly for a non-empty line holding "failed" in any case with at least five space-separated words. |
| `Batching.FailedCardNameJoins` | HalfMagicProximity/ProximityBatch.cs:106-116 | The reported name is the fifth to second-to-last words, joined by single spaces. |
| `Batching.FailureLineRoundTrip` | HalfMagicProximity/ProximityBatch.cs:106-116 | For a failure line made of four header words, a name and a last word, the reported name is exactly that name. |
| `Batching.TrimSpacedWords` | HalfMagicProximity/ProximityBatch.cs:112-116 | Accumulating words each followed by a space and then trimming gives the words joined by single spaces. |
| `Batching.DeckTextJoin` | HalfMagicProximity/ProximityBatch.cs:241 | The deck text is every line followed by a newline. |
| `Batching.DeckTextLines` | HalfMagicProximity/ProximityBatch.cs:241 | Splitting the deck text at the newline gives back the lines, then an empty last piece. |
| `Batching.ProximityBatch.constructor` | HalfMagicProximity/ProximityBatch.cs:33-48 | A new batch holds its name and renderer file, no deck lines, and no failures. |
| `Batching.ProximityBatch.IsFull` | HalfMagicProximity/ProximityBatch.cs:30 | A batch is full exactly when it holds at least the maximum number of deck lines. |
| `Batching.ProximityBatch.IsBatchFunctional` | HalfMagicProximity/ProximityBatch.cs:31 | A batch can run exactly when it has a name, a renderer file and at least one deck line. |
| `Batching.ProximityBatch.AddCard` | HalfMagicProximity/ProximityBatch.cs:235-246 | A valid face appends its line and counts one more face. An invalid face changes nothing. |
| `Batching.ProximityBatch.HandleProximityOutput` | HalfMagicProximity/ProximityBatch.cs:96-122 | The failure count grows by one exactly for a failure line, and the name handed to the manager is the parsed one. The deck is untouched. |
| `Orchestration.BatchNameInjective` | HalfMagicProximity/ProximityManager.cs:31 | Batch names "hlf_i" are distinct for distinct i. |
| `Orchestration.RerenderBatchNameDistinct` | HalfMagicProximity/ProximityManager.cs:10-11 | Rerender batch names are distinct per attempt and never clash with a first-pass batch name. |
| `Orchestration.Take` | HalfMagicProximity/ProximityManager.cs:36-43 | The do-while loop takes at least one face and never more than remain. |
| `Orchestration.PartitionFlatten` | HalfMagicProximity/ProximityManager.cs:28-44 | The batches, read one after the other, hold every deck line in input order. |
| `Orchestration.PartitionGroups` | HalfMagicProximity/ProximityManager.cs:28-44 | Every batch is non-empty and holds at most 20 accepted faces. Every batch but the last holds exactly 20. |
| `Orchestration.PartitionAllAccepted` | HalfMagicProximity/ProximityManager.cs:28-44 | When every face is valid there are ceil(n/20) batches, all of 20 faces except the last. |
| `Orchestration.FortyFiveFaces` | HalfMagicProximity/ProximityManager.cs:28-44 | 45 valid faces are sorted into batches of 20, 20 and 5. |
| `Orchestration.CardLines` | HalfMagicProximity/ProximityManager.cs:36-43 | There is one deck line per listed face, in list order. |
| `Orchestration.Matching` | HalfMagicProximity/ProximityManager.cs:86 | The faces selected for a failed name are listed faces of the pool. |
| `Orchestration.MatchingIff` | HalfMagicProximity/ProximityManager.cs:86 | A face is queued for a rerender exactly when it is listed and its lower-cased name contains the lower-cased failed name. |
| `Orchestration.Routed` | HalfMagicProximity/ProximityManager.cs:67-92 | After one failed name, there is at most one rerender deck beyond the current attempt. |
| `Orchestration.RoutedAll` | HalfMagicProximity/ProximityBatch.cs:84-87 | After the failed names of a whole output, there is still at most one rerender deck beyond the current attempt. |
| `Orchestration.RoutedShape` | HalfMagicProximity/ProximityManager.cs:67-92 | Handling one failure touches only the current attempt's rerender deck, which only grows. It opens at most one batch, and never more than three in all. |
| `Orchestration.RoutedAllKeeps` | HalfMagicProximity/ProximityManager.cs:82-91 | Failures never change the rerender decks of earlier attempts. |
| `Orchestration.ReportedBy` | HalfMagicProximity/ProximityBatch.cs:102-119 | An output line reports at most one name, and does so exactly when it is a failure line with at least five words. |
| `Orchestration.ReportedAtMostFailures` | HalfMagicProximity/ProximityBatch.cs:102-119 | A batch reports no more names than the failures it counts. |
| `Orchestration.ProximityManager.RerenderedStops` | HalfMagicProximity/ProximityManager.cs:94-137 | The retry loop uses at most three attempts, and uses one only when a rerender batch exists for it. It stops with no failures, with every attempt used, or with no batch for the next attempt. |
| `Orchestration.ProximityManager.RerenderedCount` | HalfMagicProximity/ProximityManager.cs:94-137 | After at least one attempt, the failure count is the number of names the last attempt reported. |
| `Orchestration.ProximityManager.constructor` | HalfMagicProximity/ProximityManager.cs:17-20 | A new manager holds the faces and the settings, and starts with no batches, no failures and no attempts. |
| `Orchestration.ProximityManager.HandleFailedRender` | HalfMagicProximity/ProximityManager.cs:67-92 | The failure count always grows by one. Only the current attempt's rerender deck changes, as the routing function says. A fresh rerender batch is opened only when none exists for this attempt. |
| `Orchestration.ProximityManager.OpenRerenderBatch` | HalfMagicProximity/ProximityManager.cs:82-83 | A fresh, empty rerender batch is appended for the current attempt. |
| `Orchestration.ProximityManager.QueueMatches` | HalfMagicProximity/ProximityManager.cs:85-91 | The lines of every matching face are appended to the current rerender deck. |
| `Orchestration.ProximityManager.ReadLine` | HalfMagicProximity/ProximityBatch.cs:96-122 | One output line adds one failure to the batch when it is a failure line, and reports its name to the manager when one can be parsed. |
| `Orchestration.ProximityManager.Report` | HalfMagicProximity/ProximityBatch.cs:109-119 | The manager handles exactly the name the line yields, if any. |
| `Orchestration.ProximityManager.ReportName` | HalfMagicProximity/ProximityBatch.cs:116 | Handing a name to the manager is one failed render. |
| `Orchestration.ProximityManager.ReadOutput` | HalfMagicProximity/ProximityBatch.cs:84-87 | Reading a batch's output counts every failure line and routes every reported name, in order. |
| `Orchestration.ProximityManager.RunBatch` | HalfMagicProximity/ProximityBatch.cs:73-93 | A batch run records its name. Its failure count grows by the failure lines the renderer prints, and the manager handles every name they report. A batch that cannot run prints nothing. |
| `Orchestration.ProximityManager.SortIntoBatches` | HalfMagicProximity/ProximityManager.cs:27-44 | The new batches are fresh and named hlf_0, hlf_1, ... from the existing count. Their deck lines are the partition of the faces' lines into groups of 20 accepted faces. |
| `Orchestration.ProximityManager.SortStep` | HalfMagicProximity/ProximityManager.cs:29-44 | One turn of the outer loop adds the next group of the partition as a new batch. |
| `Orchestration.ProximityManager.FillNextBatch` | HalfMagicProximity/ProximityManager.cs:31-43 | The new batch takes the next group of lines, stopping when it is full or when the faces run out. |
| `Orchestration.ProximityManager.OpenBatch` | HalfMagicProximity/ProximityManager.cs:31-33 | A fresh, empty batch named after the current count is appended. |
| `Orchestration.ProximityManager.RunAllBatches` | HalfMagicProximity/ProximityManager.cs:47-53 | The batches run in order and their decks are untouched. The manager's failure count and rerender decks take in what every batch reports, in order. |
| `Orchestration.ProximityManager.RunFirst` | HalfMagicProximity/ProximityManager.cs:48-53 | Running one batch of the first pass records its name, leaves every deck untouched, and routes the names it reports. |
| `Orchestration.ProximityManager.RunNext` | HalfMagicProximity/ProximityManager.cs:48-53 | One turn of the run loop extends the first pass by the next batch. |
| `Orchestration.ProximityManager.StartAttempt` | HalfMagicProximity/ProximityManager.cs:96-102 | The count is reset, the attempt is used up, and the attempt's batch holds the queued deck. |
| `Orchestration.ProximityManager.RunAttempt` | HalfMagicProximity/ProximityManager.cs:96-106 | The attempt's batch runs. Its failures become the new count and go to the next attempt's deck, and the retry function advances by one attempt. |
| `Orchestration.ProximityManager.AttemptRerender` | HalfMagicProximity/ProximityManager.cs:94-137 | The final decks, attempt count and failure count are those of the retry function. Only rerender batches are run, in attempt order. |
| `Orchestration.ProximityManager.RerenderFailures` | HalfMagicProximity/ProximityManager.cs:55-60 | The retry loop runs only when failures were counted, and then ends in the retry function's state. |
| `Orchestration.ProximityManager.RenderAll` | HalfMagicProximity/ProximityManager.cs:47-61 | Every batch runs once, in order, then the rerender batches. The loop stops with no failures, all attempts used, or nothing queued. |
| `Orchestration.ProximityManager.Run` | HalfMagicProximity/ProximityManager.cs:22-61 | The faces are sorted into batches of at most 20 accepted faces. The batches run in order, then at most three rerender attempts. The run ends with no failures, all attempts used, or nothing queued. |
| `Reconciliation.GetFileName` | HalfMagicProximity/ArtManager.cs:130-133 | The file name holds no directory separator. |
| `Reconciliation.FileNameOfPath` | HalfMagicProximity/ArtManager.cs:130-133 | For a path made of directories and a name, the file name is that name. |
| `Reconciliation.SpacedTailJoin` | HalfMagicProximity/ArtManager.cs:54-56 | Accumulating the pieces each followed by a space gives them joined by spaces, plus a trailing space. |
| `Reconciliation.ParseFileName` | HalfMagicProximity/ArtManager.cs:51-62 | The loop computes the card name and ordinal that `Parse` specifies. |
| `Reconciliation.OrdinalOf` | HalfMagicProximity/ArtManager.cs:52-62 | The ordinal read from the first piece of a file name is always a 32-bit integer; a piece that does not parse gives 0. |
| `Reconciliation.OrdinalOfMarked` | HalfMagicProximity/ArtManager.cs:59-62 | An ordinal followed by 'a'/'b' marks parses back to the ordinal. |
| `Reconciliation.CardNameOfProxy` | HalfMagicProximity/ArtManager.cs:52-57 | The words after the ordinal token of "name.png" give back the name. |
| `Reconciliation.ParseProxyFileName` | HalfMagicProximity/ArtManager.cs:51-62 | The renderer's file name "<n><marks> <name>.png" parses back to ordinal n and card name `name`, for every positive 32-bit n. |
| `Reconciliation.FindFrom` | HalfMagicProximity/ArtManager.cs:68 | The card found is the first whose display name matches the name, ignoring case. None is found only when no card matches. |
| `Reconciliation.DeleteProxyParity` | HalfMagicProximity/ArtManager.cs:66-74 | A proxy is kept exactly when its ordinal's parity matches the face: even for a back, odd for a front. Consecutive ordinals and opposite faces always get opposite decisions. |
| `Reconciliation.Visit` | HalfMagicProximity/ArtManager.cs:39-111 | One file is visited. At most this file is deleted, proxies are only added, processed grows by at most one, good grows by no more than processed, and a visit never both deletes and copies. |
| `Reconciliation.VisitForeign` | HalfMagicProximity/ArtManager.cs:44-49 | A file that is not ".png" is counted as processed and nothing else happens. |
| `Reconciliation.VisitUnmatched` | HalfMagicProximity/ArtManager.cs:68-102 | A file matching no card deletes nothing and copies nothing. |
| `Reconciliation.VisitDeletes` | HalfMagicProximity/ArtManager.cs:73-80 | The wrong half is deleted and nothing is copied. |
| `Reconciliation.VisitCopies` | HalfMagicProximity/ArtManager.cs:81-92 | The right half is copied as "<card name>.png" and nothing is deleted. |
| `Reconciliation.VisitNewProxy` | HalfMagicProximity/ArtManager.cs:84-92 | Every proxy a visit adds is named after some card's display name, up to case. |
| `Reconciliation.VisitAllBounds` | HalfMagicProximity/ArtManager.cs:37-112 | Over the whole sweep, only visited files are deleted, every new proxy belongs to some card, processed grows by at most the number of files, and good never grows more than processed. |
| `Reconciliation.MissingNone` | HalfMagicProximity/ArtManager.cs:114-122 | The missing count is at most the number of cards. It is zero exactly when every card has a proxy named after its display name. |
| `Reconciliation.MissingAntitone` | HalfMagicProximity/ArtManager.cs:114-122 | More proxies never mean more missing cards. |
| `Reconciliation.ArtManager.constructor` | HalfMagicProximity/ArtManager.cs:15-18 | The manager holds the faces to check. |
| `Reconciliation.ArtManager.VisitFile` | HalfMagicProximity/ArtManager.cs:39-111 | The folders and counters become those of one visit of the file. |
| `Reconciliation.ArtManager.CleanProxies` | HalfMagicProximity/ArtManager.cs:20-128 | The folders and counters become those of the sweep over the front images, then the back images. The failed count is the number of cards left without a proxy. |
| `Text.IndexOfFrom` | HalfMagicProximity/CardManager.cs:65 | The index found is the first occurrence at or after the start. None is found only when there is no occurrence there. |
| `Text.Split` | HalfMagicProximity/CardData.cs:39 | A split always gives at least one piece. |
| `Text.Tokens` | HalfMagicProximity/ProximityBatch.cs:106 | No token is empty. |
| `Text.ToLower` | HalfMagicProximity/ConfigManager.cs:303 | Each character is mapped to its lower-case form, and the length is kept. |
| `Text.ToUpper` | HalfMagicProximity/CardData.cs:69 | Each character is mapped to its upper-case form, and the length is kept. |
| `Text.ContainsIff` | HalfMagicProximity/CardManager.cs:65 | `Contains` holds exactly when the pattern occurs somewhere. |
| `Text.JoinSplit` | HalfMagicProximity/ArtManager.cs:52 | Joining the pieces of a split with the separator gives back the string. |
| `Text.SplitJoin` | HalfMagicProximity/CardData.cs:39 | Splitting a join of separator-free pieces gives back the pieces. |
| `Text.SplitPiecesFree` | HalfMagicProximity/ArtManager.cs:132 | No piece of a split contains the separator. |
| `Text.TokensOfJoin` | HalfMagicProximity/ProximityBatch.cs:106 | Splitting a join of space-free, non-empty words at spaces, dropping empty entries, gives back the words. |
| `Text.Trim` | HalfMagicProximity/CardData.cs:39 | The trimmed string neither starts nor ends with white space. |
| `Text.TrimAppendSpace` | HalfMagicProximity/ArtManager.cs:57 | A trailing space is removed by trimming. |
| `Text.InToUpper` | HalfMagicProximity/CardData.cs:69-75 | An upper-case letter is in the upper-cased string exactly when it or its lower-case form is in the original. |
| `Text.NatToString` | HalfMagicProximity/ProximityManager.cs:31 | A number is written as at least one digit, and digits only. |
| `Text.ParseNatToString` | HalfMagicProximity/ArtManager.cs:61-62 | Parsing a written 32-bit number gives the number back. |
| `Text.ReplaceCharIsWithout` | HalfMagicProximity/ArtManager.cs:59 | Replacing a character by nothing removes exactly its occurrences. |
| `Text.ReplaceLength` | HalfMagicProximity/ArtManager.cs:59 | `ReplaceAll` models String.Replace. A string without the pattern is left as it is. A replacement as long as the pattern keeps the length, and a shorter one never lengthens the string and shortens it whenever the pattern occurs. |
| `Text.TryParseInt` | HalfMagicProximity/ArtManager.cs:62 | A parsed value is a 32-bit integer. The string ends in a digit, and a negative value comes only from a leading '-'. A plain string of digits within range parses to its decimal value. |

## Left out

- Files, JSON and processes are not modelled. The settings file, the catalog file, the deck
  and command files and the renderer process are all outside the model. The catalog arrives
  as a sequence of `Catalog.CatalogEntry` values, with a missing property read as "" or
  false, as `GetCardProperty` does. The renderer is a function parameter of the manager.
  A `None` from it stands for `Init` or `VerifyProximityFiles` failing, and a batch with no
  name, no renderer file or no deck lines prints nothing. The generated command line
  (ProximityBatch.cs:169-195) is not modelled.
- Path discovery is not modelled. This covers `ParseScryfallPath`, `ParseProximityPath`,
  `IsScryfallJSON`, `IsProximityDirectory` and `Init` (ConfigManager.cs:36-296). The two
  paths they settle on are parameters of the `ConfigManager` constructor. `ParseIsTraceEnabled`
  and the logger are left out as well.
- `CardManager` refers to `ConfigManager.UpdatesOnly` and `ConfigManager.OutputDirectory`,
  which ConfigManager.cs does not define. The updates-only skip (CardManager.cs:181-188) and
  the unused-entry warning loops (CardManager.cs:82-104), which only log, are left out.
- The `CardData` constructor in CardData.cs takes no template, while CardManager.cs passes
  one. The model follows the caller and adds a `template` field to the card.
- CardManager.cs:173 assigns `repeat.Watermark`, but that property's setter is private
  (CardData.cs:24), so that line does not compile as it stands. The model follows the
  evident intent: the kept face takes the duplicate's watermark (`Cards.FacePool.AdoptWatermark`,
  `Catalog.ProcessedRepeat`).
- Case mapping covers ASCII letters only. Culture-specific and non-ASCII case rules are not
  modelled.
- Paths use the Windows separator '\\'. The source needs .NET Core 2.0 or later: it calls
  `string.Split(string)` (CardData.cs:39, ArtManager.cs:52) and uses nullable reference types
  (ConfigManager.cs:42). `Path.Combine` is modelled with the .NET Core rules for two parts
  (`Batching.Combine`): a separator is inserted after a first part that ends in ':', and only
  a leading separator or a drive letter followed by ':' makes a part rooted. Other
  platforms' separators are not modelled.
- `String.EndsWith(string)` without a comparison argument (ArtManager.cs:44) compares with
  the current culture. The model compares character by
  character. The two agree on the ASCII names compared here; characters a culture ignores
  are not modelled.
- `Environment.NewLine` is a parameter of `DeckText`.
- Rerender batches are filled without the 20-face limit, as the code does.
- `Cards.Sibling(k)`: the sibling is found by position in the pool (k+1 for an even k, k-1
  for an odd one) instead of through a stored reference.
- The batch-count estimate printed by `Run` (ProximityManager.cs:24-25) only logs and is
  left out.
- `CleanProxies` is modelled without its folder handling:
  - `Directory.Exists` and `CreateDirectory` are not modelled. The two image folders are
    given as the sequences of their file paths.
  - `File.Copy` always succeeds, so the "Unable to collect" branch (ArtManager.cs:93-96) is
    unreachable.
  - `GetDirectoryName` only feeds log lines and paths and is left out.
  - File names are compared exactly; a case-insensitive file system is not modelled.
- `CleanProxies` makes one pass over the front images and one over the back images. Each
  proxy is kept or deleted by the parity rule, and a kept one is copied over any existing
  file of the same name (ArtManager.cs:66-92).
- `Reconciliation.Visit`: its own contract states only bounds. The outcome of each branch
  is stated by `VisitForeign`, `VisitUnmatched`, `VisitDeletes` and `VisitCopies`.
- `Batching.GenerateCardString`: its own contract states only when the line is empty and
  how it starts. The overrides it writes and their order are stated by
  `Batching.OverridesPresent`, `Batching.OverridesOrdered` and `Batching.CardStringRoundTrip`.
- `Reconciliation.GetFileName`: its own contract states only that no separator remains.
  `Reconciliation.FileNameOfPath` states the round trip.
- `Text.Trim`: its contract does not state that only white space is removed.
  `Text.TrimAppendSpace` and the trimming lemmas cover the cases the model relies on.

## Findings

| source | as written | input that shows it | evidently intended | confidence | as-written member | corrected member |
|---|---|---|---|---|---|---|
| HalfMagicProximity/CardData.cs:67-84 | `Color` starts as null. When the mana cost holds no colour symbol nothing is appended, so `CorrectColorOrder` returns null and `Color.Length` throws. The exception escapes the constructor and ends `ParseJson` through its generic catch. | a face with mana cost "{3}" | a colourless face gets the empty colour with count 0 | not executed | `Cards.ColorCountAsWritten` (counterexample: `Cards.ColorlessCostFails`) | `Cards.GetColorData` |
