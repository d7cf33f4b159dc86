# peppy core, modelled in Dafny

A model of the non-GUI logic of peppy, a text editor written in Python on
wxPython, with proofs about that model.

The centre is the **hyperspectral cube engine** (`peppy/hsi/cube.py`). A cube
is a raster of lines × samples × bands held as one flat payload in one of
three interleaves:

- BIP: band-interleaved-by-pixel;
- BIL: band-interleaved-by-line;
- BSQ: band-sequential.

The model covers:

- address translation in each layout, and its inverse;
- the row-major reshape behind `getPixel`;
- the metadata that `initializeSizes` and `verifyAttributes` fill in;
- the running extrema;
- bad-band masks;
- wavelength-driven band selection.

The image views over a cube (`peppy/hsi/view.py`) keep which bands are on
display.

Around the cube sit the pieces of the editor whose logic does not depend on
the toolkit:

- preference converters and the class-wide preference store (`userparams.py`);
- smart-case and wildcard replacement (`find_replace.py`);
- box geometry of the bitmap scroller (`bitmapscroller.py`);
- the styled-text byte encoding and the binary guess (`stcinterface.py`);
- the choice of a major mode (`major.py`);
- re-indentation and electric return in the fundamental mode (`fundamental.py`);
- Python-mode indentation (`python_mode.py`);
- ChangeLog entries (`changelog_mode.py`);
- minibuffer input conversion (`minibuffer.py`);
- start-up command-line handling (`main.py`);
- the layered configuration (`configprefs.py`).

Each source file is one Dafny module. Two shared modules hold common helpers:

- `Base`: an optional value, the minimum and maximum of a sequence, Python's
  floor division, and filtering;
- `Strings`: the Python string operations the code relies on, over
  `seq<char>`, with ASCII case mapping.

The model follows the source's own form:

- Pure computations are functions.
- Loops are methods whose `ensures` ties the result to a specification
  function.
- Objects whose fields the source updates are classes with `modifies`
  clauses. Examples: the cube's extrema, a view's indexes, the preference
  store, the styled-text control, the application's argument list, and the
  configuration cache.

Calls into the toolkit are inputs to the model:

- styled-text queries: lines, styles, fold levels and brace matching;
- the regular-expression match groups;
- `eval`;
- the platform names;
- the files that exist;
- Python's method resolution order.

## Model

| member | source | states |
|---|---|---|
| Cube.FlatOfLocationInverts | peppy/hsi/cube.py:625-636 | for every layout (BIP here, BIL at 666-677 and BSQ at 708-719) and every location inside the cube, `flatToLocation(locationToFlat(loc))` gives `loc` back |
| Cube.LocationOfFlatInverts | peppy/hsi/cube.py:666-677 | whenever `flatToLocation(pos)` is defined (the divisors are non-zero), `locationToFlat` of its answer is `pos` again, for all three layouts |
| Cube.FlatToLocationInCube | peppy/hsi/cube.py:708-719 | every position of a non-empty cube's payload is split into a line, sample and band that all lie inside the cube |
| Cube.BandBoundaryIsBandStep | peppy/hsi/cube.py:622-623 | `getBandBoundary` (1 for BIP, samples for BIL at 663-664, samples*lines for BSQ at 705-706) is exactly the distance between a pixel's flat address in band b and in band b+1 |
| Cube.GetPixel | peppy/hsi/cube.py:604-605 | `getPixel` on the reshaped payload (BIP here, BIL 645-646, BSQ 687-688) reads the element at the location's flat address, which lies inside the payload |
| Cube.ArangePixel | peppy/hsi/cube.py:750-759 | on the `arange` payload of the module's self-test every pixel reads its own flat address, in every layout |
| Cube.ArangeExample | peppy/hsi/cube.py:750-759 | the self-test's 4 x 5 x 3 BIP cube reads 0, 1, 2 at (0, 0, band) |
| Cube.BandRow | peppy/hsi/cube.py:607-610 | one line of a band image has `samples` values, each the cube's pixel at that line, sample and band |
| Cube.BandRaw | peppy/hsi/cube.py:648-651 | `getBandRaw(band)` (BIP 607-610, BIL 648-651, BSQ 690-693) is a lines x samples image |
| Cube.BandRawPixel | peppy/hsi/cube.py:690-693 | pixel (l, s) of the band image equals `getPixel(l, s, band)` in every layout |
| Cube.BsqBandIsContiguous | peppy/hsi/cube.py:690-693 | in a BSQ payload band b occupies the contiguous block [b*lines*samples, (b+1)*lines*samples) and pixel (l, s) of its image is at offset l*samples+s of that block |
| Cube.SpectraRaw | peppy/hsi/cube.py:612-615 | `getSpectraRaw(line, sample)` (BIL 653-656, BSQ 695-698) has one value per band, the pixel at each band |
| Cube.LineOfSpectraRaw | peppy/hsi/cube.py:658-661 | `getLineOfSpectraCopy(line)` (BIP 617-620, BSQ 700-703) is samples rows, row s being the spectrum of pixel (line, s) |
| Cube.Transpose | peppy/hsi/cube.py:658-661 | the transpose used by BIL and BSQ has the swapped shape and element (j, i) equal to element (i, j) of its input |
| Cube.Widened | peppy/hsi/cube.py:431-437 | after `updateExtrema` on non-empty data both recorded extrema are set |
| Cube.WidenedBounds | peppy/hsi/cube.py:431-437 | the new minimum is at most the old one and at most every value read, the new maximum at least both; a previously unset end becomes the data's own minimum or maximum, and each end is either a data value or the old end |
| Cube.WidenedTwice | peppy/hsi/cube.py:431-437 | recording two pieces one after the other gives the same extrema as recording them together, so the running extrema are those of all data seen |
| Cube.FlattenEmpty | peppy/hsi/cube.py:431-432 | the flattened array whose `min()` is taken is empty exactly when every row is empty |
| Cube.MaskBands | peppy/hsi/cube.py:470 | `spectra *= self.bbl` keeps the length of the spectrum |
| Cube.MaskBandsKeepsGoodZeroesBad | peppy/hsi/cube.py:470 | a band flagged 1 keeps its value and a band flagged 0 becomes 0 |
| Cube.GuessScaleFactor | peppy/hsi/cube.py:398-406 | the scale factor is 10000.0 exactly for the seven listed integer types and 1.0 for every other type and for an unknown type |
| Cube.ScaleFactorOfBytesAndFloats | peppy/hsi/cube.py:401-406 | unsigned bytes, both float types and an unknown type all get 1.0 |
| Cube.GuessWavelengthUnits | peppy/hsi/cube.py:423-429 | the units are micrometres exactly when the last wavelength is below 100, nanometres otherwise |
| Cube.UnitsFollowLastWavelength | peppy/hsi/cube.py:426 | a list that ends below 100 is read as micrometres even when an earlier entry is in the hundreds |
| Cube.NormalizeUnits | peppy/hsi/cube.py:499-507 | without cube units the value is unchanged; otherwise the result times the cube unit's scale equals the value times the given unit's scale |
| Cube.NormalizeSameUnits | peppy/hsi/cube.py:499-507 | a value already in the cube's units is unchanged |
| Cube.Ones | peppy/hsi/cube.py:376-377 | the default bad-band list has one entry per band, all 1 (none for a negative count) |
| Cube.Zeros | peppy/hsi/cube.py:746 | the payload of a created cube has the requested number of entries, all 0 |
| Cube.UsableInRange | peppy/hsi/cube.py:531-536 | the first pass collects exactly the channels flagged 1 whose wavelength lies in [min, max], in ascending order, and is empty exactly when there is none |
| Cube.FirstUsable | peppy/hsi/cube.py:539-543 | the search from below answers the first channel flagged 1, or nothing when there is none |
| Cube.LastUsable | peppy/hsi/cube.py:544-548 | the search from above answers the last channel flagged 1, or nothing when there is none |
| Cube.Bracket | peppy/hsi/cube.py:549-559 | the middle search stops at the first usable channel whose wavelength is below the centre while the next one is above it, and answers nothing when there is no such channel |
| Cube.BandListWithoutWavelengths | peppy/hsi/cube.py:527-528 | a cube without wavelengths selects no band |
| Cube.BandListInRange | peppy/hsi/cube.py:531-537 | when some usable band lies in the range the result is exactly the usable bands in the range, ascending |
| Cube.BandListFallback | peppy/hsi/cube.py:537-560 | otherwise at most one band is returned, a valid index, and below the first wavelength it is the first usable band |
| Cube.BandListTieGoesHigher | peppy/hsi/cube.py:552-559 | when the centre lies exactly half-way between the bracketing bands the higher band is chosen |
| Cube.BandListExample | peppy/hsi/cube.py:552-559 | bands at 450, 550 and 650 nm queried at 500 nm give band 1, not band 0 |
| Cube.BandListUpperBracketUnchecked | peppy/hsi/cube.py:552-554 | only the lower bracketing band's flag is checked: a bad upper band can be returned |
| Cube.BandListBounded | peppy/hsi/cube.py:521-561 | every band returned is a valid band index |
| Cube.DisplayBandsValid | peppy/hsi/cube.py:408-421 | with fewer than three bands or no wavelengths the display is band 0; otherwise one or three valid band indexes, never three equal ones |
| Cube.AndMasks | peppy/hsi/cube.py:583-591 | the combined list has one entry per band, 1 exactly where both cubes' flags are non-zero and 0 elsewhere |
| Cube.AndMasksCommutes | peppy/hsi/cube.py:586-589 | combining with another cube's flags is symmetric |
| Cube.AndMasksIdempotent | peppy/hsi/cube.py:586-589 | combining a 0/1 flag list with itself gives it back |
| Cube.AndMasksExample | peppy/hsi/cube.py:586-589 | [1,0,1] combined with [1,1,0] is [1,0,0] |
| Cube.ParseInterleave | peppy/hsi/cube.py:721-733 | a layout is chosen exactly when the lower-cased name is bil, bip or bsq, and it is the layout of that name |
| Cube.ParseInterleaveName | peppy/hsi/cube.py:721-733 | every layout's own name selects that layout |
| Cube.ParseInterleaveIgnoresCase | peppy/hsi/cube.py:722 | "BsQ" selects BSQ and "bsqx" is rejected |
| Cube.Cube.constructor | peppy/hsi/cube.py:204-256 | a new cube has unknown (-1) dimensions, zero offsets and sizes, no type, native byte order, no wavelengths, flags, units or scale factor, no payload, nothing backing it (`mmap` is `None`) and unset extrema |
| Cube.Cube.InitializeSizes | peppy/hsi/cube.py:327-339 | a given type replaces the current one, a non-zero byte order replaces the current one, the item size follows the type, and the payload size is computed only when it was 0 |
| Cube.Cube.VerifyAttributes | peppy/hsi/cube.py:366-396 | an unset scale factor is guessed, an empty flag list becomes all ones, missing units are guessed when there are wavelengths, the data offset is set from the file and header offsets only when it was 0, and everything else is left alone |
| Cube.Cube.Initialize | peppy/hsi/cube.py:318-325 | the combined effect of `initializeSizes` and `verifyAttributes` |
| Cube.Cube.SetDimensions | peppy/hsi/cube.py:736-746 | `createCube` records the name, dimensions, type, byte order and scale factor and sets an all-zero payload of lines*samples*bands values |
| Cube.Cube.UpdateExtrema | peppy/hsi/cube.py:431-437 | succeeds exactly for non-empty data (the `min()` of an empty array raises) and then widens the recorded extrema by it; on failure nothing changes |
| Cube.Cube.GetBandInPlace | peppy/hsi/cube.py:454-459 | succeeds exactly when the band image is non-empty; the answer is the band image and the extrema are widened by its values; on failure nothing changes |
| Cube.Cube.GetBand | peppy/hsi/cube.py:446-452 | a copy of the band image, with the extrema widened as by `getBandInPlace` |
| Cube.Cube.GetSpectraInPlace | peppy/hsi/cube.py:474-478 | the pixel's values in band order, nothing recorded |
| Cube.Cube.GetSpectra | peppy/hsi/cube.py:464-472 | succeeds exactly when there is a band; the pixel's values with the bad bands zeroed, and the extrema widened by exactly those values |
| Cube.Cube.Open | peppy/hsi/cube.py:293-301 | the first `open` of a file maps it read-only, takes its values as the payload and applies `initialize`'s defaults; a cube already backed by memory or a file is left unchanged |
| Cube.Cube.GetLineOfSpectra | peppy/hsi/cube.py:484-492 | succeeds exactly when there are samples and bands and the line can be masked in place (BIP, whose line is a copy, or a payload that is not a read-only file map); one masked spectrum per sample of the line and the extrema widened by all of them; for BIL and BSQ (cube.py:658-661, 700-703) the mask writes through to the payload, so the payload becomes `MaskedLine` and the returned spectra are the payload's new line; on failure nothing changes |
| Cube.MaskedLinePixel | peppy/hsi/cube.py:484-492 | the write-back of a BIL or BSQ line multiplies each pixel of that line by its band's flag and leaves every other pixel as it was |
| Cube.MaskedSpectra | peppy/hsi/cube.py:484-492 | one spectrum per sample of the line, each the pixel's bands multiplied by the bad-band flags |
| Cube.MaskedLineSpectra | peppy/hsi/cube.py:484-492 | after the BIL or BSQ write-back, reading the line from the payload gives exactly the masked spectra, which is why the returned line and the cube agree |
| Cube.MaskedLineExample | peppy/hsi/cube.py:484-492 | on a 1 x 2 x 2 BIL cube holding 5, 6, 7, 8 with the second band bad, reading the line leaves 5, 6, 0, 0 in the payload |
| Cube.Cube.GetBandListByWavelength | peppy/hsi/cube.py:521-561 | a negative maximum stands for the minimum, both ends are normalized to the cube's units, and the answer is the band selection on the normalized range |
| Cube.Cube.GuessDisplayBands | peppy/hsi/cube.py:408-421 | the display bands of the cube's wavelengths and flags, or the error of an empty selection |
| Cube.Cube.GetBadBandList | peppy/hsi/cube.py:583-593 | without another cube the cube's own flags; with one, both flag lists combined band by band |
| Cube.SelectBands | peppy/hsi/cube.py:530-561 | the two loops of `getBandListByWavelength` compute the band selection on the range |
| Cube.UsableScan | peppy/hsi/cube.py:532-537 | the first loop of `getBandListByWavelength` collects exactly the first pass's bands |
| Cube.NearestBand | peppy/hsi/cube.py:538-560 | the three fallback loops compute the nearest usable band |
| Cube.NewCube | peppy/hsi/cube.py:721-733 | a fresh cube of the named layout exactly when the name is known, and the error otherwise |
| Cube.CreateCube | peppy/hsi/cube.py:735-748 | a fresh all-zero cube of the given layout and dimensions, with exactly the given type and byte order, the given scale factor (or the guessed one), every band good (cube.py:375-376), no wavelengths or units, no data offset, unset extrema and an in-memory payload; no cube for an unknown layout or a negative dimension |
| View.ShiftAll | peppy/hsi/view.py:189-199 | the loops of `nextIndex` and `prevIndex` build the list of every index moved by the same step |
| View.ShiftRoundTrip | peppy/hsi/view.py:189-199 | moving forward then back restores the indexes, and indexes that were in range are accepted again |
| View.RefreshNeeded | peppy/hsi/view.py:236-245 | a reload is needed exactly when the index list and the loaded bands differ in length or in some band number |
| View.AppendRange | peppy/hsi/view.py:110-113 | each loaded band lowers the running minimum to its own minimum when smaller and raises the running maximum likewise |
| View.LoadOne | peppy/hsi/view.py:92-96 | `getBand` succeeds exactly when the image is not empty; it then gives the band image with its own minimum and maximum and widens the cube's extrema by its values; on an empty image it fails (numpy's `min` in `updateExtrema`, peppy/hsi/cube.py:431-432) with the cube's extrema unchanged |
| View.LoadAll | peppy/hsi/view.py:98-116 | succeeds exactly when there is no index or the image is not empty; then one loaded entry per index, in order, each the band image of that index with its true extrema, the view's range is the running range of the entries and the cube's extrema are widened by each band in turn; on failure nothing is loaded and the cube's extrema are unchanged |
| View.RunningRangeIsBandsRange | peppy/hsi/view.py:108-114 | the running minimum and maximum of the loop are the minimum and maximum over all loaded bands |
| View.CubeRangeIsWidened | peppy/hsi/cube.py:431-437 | widening the cube's extrema band by band is the same as widening them once by every loaded pixel |
| View.LoadedRanges | peppy/hsi/view.py:98-116 | the view's range covers exactly the loaded pixels and the cube's extrema take all loaded pixels into account |
| View.CubeView.constructor | peppy/hsi/view.py:37-55 | a new view has no cube, no indexes, no bands and the range (0, 1) |
| View.CubeView.InitDisplayIndexes | peppy/hsi/view.py:78-87 | the image view shows the cube's display bands (only the first one without RGB display), with the last band as the highest index, and band 0 without a cube; the focal plane view (291-294) shows frame 0 with the last line as the highest index |
| View.CubeView.SetCube | peppy/hsi/view.py:42-76 | a new cube clears the loaded bands and range; the bitmap is 128 x 128 without a cube, samples x lines for the image view and samples x bands for the focal plane view (285-289), falling back to samples x lines when the cube has no samples, since a zero width counts as not given |
| View.CubeView.SetIndexes | peppy/hsi/view.py:215-231 | the new indexes are taken exactly when each of the first `len(indexes)` entries is between 0 and the highest index; otherwise the indexes are unchanged, and a too-short list or a missing highest index is an error |
| View.CubeView.NextIndex | peppy/hsi/view.py:189-193 | every index moves up by one exactly when all of them stay in range; otherwise nothing changes |
| View.CubeView.PrevIndex | peppy/hsi/view.py:195-199 | every index moves down by one exactly when all of them stay in range; otherwise nothing changes |
| View.CubeView.GetIndex | peppy/hsi/view.py:201-206 | a band number the user typed is shifted back by the display offset; any other is used as is |
| View.CubeView.GotoIndex | peppy/hsi/view.py:208-210 | with one index shown it becomes the requested band exactly when that band is in range; with three indexes the one-element list never succeeds, and it is rejected when the band is out of range |
| View.CubeView.GetCoords | peppy/hsi/view.py:269-275 | the image view maps (x, y) to line y, sample x in the shown band; the focal plane view (299-303) to line = shown frame, sample x, band y |
| View.CubeView.LoadBands | peppy/hsi/view.py:98-116 | without a cube nothing happens; otherwise it fails exactly when there are indexes and the image is empty, leaving no bands and both ranges unchanged; on success the loaded bands match the indexes, the view's range is their range and the cube's extrema take in every loaded pixel; nothing else of the cube changes |
| View.CubeView.LoadFrom | peppy/hsi/view.py:98-116 | the loading loop on a given cube: it fails exactly when there are indexes and the image is empty, leaving no bands (the list is emptied before the loop) and both ranges unchanged; otherwise bands match the indexes and both ranges are updated as above |
| View.CubeView.Keep | peppy/hsi/view.py:109-116 | after a successful loop the view's bands are the loaded entries, they match the indexes, and its range is their range |
| View.CubeView.Show | peppy/hsi/view.py:233-247 | bands are reloaded exactly when a reload is needed (index list differs or nothing is loaded), and a reload widens the cube's extrema by every loaded pixel; a reload on an empty image with indexes fails, leaving no bands and both ranges unchanged; without a reload the bands, range and cube extrema are left alone; nothing else of the cube changes |
| View.CubeView.ShowSettles | peppy/hsi/view.py:233-247 | right after a load with a non-empty index list a second `show` does not reload |
| View.CubeView.LoadedRangeBoundsPixels | peppy/hsi/view.py:98-116 | every pixel of every loaded band lies between the view's minimum and maximum |
| View.CubeView.CoordsShowLoadedPixel | peppy/hsi/view.py:269-275 | in the image view, the loaded pixel at (x, y) is the cube's pixel at the location `getCoords(x, y)` names |
| View.NewView | peppy/hsi/view.py:37-40 | a fresh view of the given kind on the cube, with one or three indexes (one without RGB display), all in range for the image view of a cube with bands; the focal plane view always starts at frame 0 |
| UserParams.Unquote | peppy/lib/userparams.py:437-449 | at most one quotation mark is removed at each end, and text with no quotation mark at either end comes back unchanged |
| UserParams.Quote | peppy/lib/userparams.py:451-462 | a string is written between double quotes, two characters longer |
| UserParams.UnquoteQuote | peppy/lib/userparams.py:437-462 | every string written by `valueToText` is read back as itself by `textToValue` |
| UserParams.BoolToText | peppy/lib/userparams.py:629-633 | a boolean is written as an unquoted lower-case word (`yes` or `no`) |
| UserParams.BoolRoundTrip | peppy/lib/userparams.py:622-633 | a boolean survives being written and read back, with or without surrounding quotes |
| UserParams.TextToBoolIgnoresCase | peppy/lib/userparams.py:622-627 | the reading is case-insensitive: upper-casing the text never changes the boolean |
| UserParams.ListValues | peppy/lib/userparams.py:713-722 | a list text splits into at least one item, each free of commas and of surrounding white space |
| UserParams.ListRoundTrip | peppy/lib/userparams.py:709-725 | a non-empty list of trimmed, non-empty, comma-free items survives `valueToText` then `textToValue` |
| UserParams.CommaSplit | peppy/lib/userparams.py:709-725 | the text of two or more items holds a comma, and splitting it there and stripping the pieces gives the items back |
| UserParams.SetValues | peppy/lib/userparams.py:751-761 | the set reading holds exactly the items of the list reading |
| UserParams.SetRoundTrip | peppy/lib/userparams.py:745-761 | a non-empty set of trimmed, non-empty, comma-free items survives being written sorted and read back |
| UserParams.RangeTable | peppy/lib/userparams.py:941 | `range(0, n)` used as both tables maps exactly the indexes 0..n-1 to themselves |
| UserParams.NewIndexChoice | peppy/lib/userparams.py:927-945 | plain choices map every index to itself; pairs give the labels in order and map index i to the i-th key and back; a default is kept only when it is one of the values, else the value of index 0 |
| UserParams.TextToIndexValue | peppy/lib/userparams.py:952-965 | the answer is always one of the values; anything other than the default is the number the unquoted text spells |
| UserParams.IndexChoiceRoundTrip | peppy/lib/userparams.py:952-965 | every value of the table survives being written as a number and read back |
| UserParams.IndexOf | peppy/lib/userparams.py:1025-1028 | `list.index`: the first position holding the item, or -1 for the `ValueError` of a missing one |
| UserParams.NewKeyedChoice | peppy/lib/userparams.py:1008-1015 | keys and labels in the given order; the default is the key of the named label when there is one, otherwise the first key |
| UserParams.TextToKey | peppy/lib/userparams.py:1023-1029 | the answer is always a key: the key of the label the unquoted text names, and the first key for text that names no label |
| UserParams.KeyToText | peppy/lib/userparams.py:1031-1033 | a key is written as its own label |
| UserParams.KeyedRoundTrip | peppy/lib/userparams.py:1023-1033 | with distinct labels that carry no quotation marks at their ends, every key survives being written and read back |
| UserParams.BlockCovers | peppy/lib/userparams.py:1991-2012 | a section header followed by one line per option covers every option of the section |
| UserParams.TextToValue | peppy/lib/userparams.py:437-1029 | each parameter kind reads configuration text into a value of its own kind |
| UserParams.ConversionRoundTrip | peppy/lib/userparams.py:451-1033 | for every parameter kind, a value that the kind can represent survives `valueToText` then `textToValue` |
| UserParams.BaseOption | peppy/lib/userparams.py:1722-1724 | the option looked up is a prefix of the configured name: the part before a `[subscript]`, unless the bracket opens the name |
| UserParams.FirstParamIsFirst | peppy/lib/userparams.py:1726-1736 | the lookup finds nothing exactly when no class on the search path declares the option, and otherwise the declaration of the first class that does |
| UserParams.MergedKeepsAndOverrides | peppy/lib/userparams.py:1587-1605 | after `setDefaults` every section of either table is present, the new defaults win, the other old defaults are kept, and nothing else appears |
| UserParams.WithSections | peppy/lib/userparams.py:1603-1604 | the parameter table gains exactly the new sections, each empty, and keeps every existing section as it was |
| UserParams.MergedInOrderIsMerged | peppy/lib/userparams.py:1599-1604 | merging distinct sections one at a time gives the merge of all of them, whatever the order |
| UserParams.WithSectionsInOrderIsWithSections | peppy/lib/userparams.py:1599-1604 | adding sections one at a time to the parameter table gives the table with all of them |
| UserParams.SortedKeysMerge | peppy/lib/userparams.py:1599-1604 | walking the new sections in one fixed order (the dictionary's iteration order is not modelled) merges all of them |
| UserParams.SavedIsUnchanged | peppy/lib/userparams.py:1930-1943 | right after the copy of the user settings is taken, `isUserConfigChanged` answers no |
| UserParams.SettingIsChange | peppy/lib/userparams.py:1945-1971 | setting an option to a value the saved copy does not hold makes `isUserConfigChanged` answer yes |
| UserParams.GlobalPrefs.constructor | peppy/lib/userparams.py:1569-1584 | all tables start empty |
| UserParams.GlobalPrefs.FindParam | peppy/lib/userparams.py:1704-1743 | the parameter of the subscript-free option in the section itself or, failing that, in the first of its ancestors that declares it |
| UserParams.GlobalPrefs.SetDefaults | peppy/lib/userparams.py:1587-1605 | the defaults become the merge of the old ones and the new ones, and every new section gets a (possibly empty) parameter table |
| UserParams.GlobalPrefs.MergeSections | peppy/lib/userparams.py:1599-1604 | the loop over the given sections merges them one by one |
| UserParams.GlobalPrefs.MergeSection | peppy/lib/userparams.py:1600-1604 | one pass: the section's defaults are updated by the new ones and its parameter table is created when missing |
| UserParams.GlobalPrefs.SaveUser | peppy/lib/userparams.py:1930-1943 | the saved copy equals the user settings, so nothing counts as changed |
| UserParams.GlobalPrefs.IsUserConfigChanged | peppy/lib/userparams.py:1945-1971 | yes exactly when some user section is new, holds a new option, or holds a value different from the saved one; removed options are not noticed |
| UserParams.GlobalPrefs.ConfigToText | peppy/lib/userparams.py:1973-2015 | the lines are exactly the fixed header followed, for each section in sorted order, by nothing when it has no options and otherwise `[section]`, one `option = text` line per option in sorted order and a blank line; so every section with options appears with all its options; the text is the lines joined by the line separator |
| UserParams.GlobalPrefs.AppendSections | peppy/lib/userparams.py:1988-2012 | the loop over sections appends exactly each section's text, in order, after what came before, and so writes every section it passes |
| UserParams.GlobalPrefs.AppendSection | peppy/lib/userparams.py:1990-2012 | one pass appends exactly the section's text: its block and a blank line when it has options, nothing otherwise |
| UserParams.GlobalPrefs.SectionLines | peppy/lib/userparams.py:1993-2012 | the block of a section is exactly its header followed by one line per option in sorted option order, covering every option |
| UserParams.GlobalPrefs.RenderOption | peppy/lib/userparams.py:2001-2011 | an option without a parameter is written as its raw text, otherwise through its parameter's `valueToText` |
| UserParams.GlobalPrefs.SetAttr | peppy/lib/userparams.py:2185-2200 | setting a subscripted name to `None` removes it from the class's user settings; any other assignment stores the value; no other class changes |
| UserParams.SubscriptOf | peppy/lib/userparams.py:2096-2098 | the subscript cut out of `name[x]` is `x` |
| UserParams.SubscriptsSpec | peppy/lib/userparams.py:2051-2111 | with no subscripted key the answer is `['default']` at index 0; otherwise the subscripts are sorted, are exactly those `x` with `name[x]` a key, and the default index is a valid position pointing at the default subscript when it is among them, else 0 |
| UserParams.AllSubscripts | peppy/lib/userparams.py:2051-2111 | `_getAllSubscripts` computes the subscript list and default index of the specification, in which the default is the text under the default key, or else the last subscript holding the bare keyword's value unless that value is `None` |
| UserParams.NothingNamesNoDefault | peppy/lib/userparams.py:2087-2099 | a bare keyword whose value is `None` leaves the default subscript `""`, so the index is 0 unless `name[]` is a key |
| UserParams.NothingDefaultExample | peppy/lib/userparams.py:2087-2099 | with `{"x": None, "x[a]": "v", "x[b]": None}` the subscript `b` is not the default; the index is 0 |
| UserParams.GroupedShape | peppy/lib/userparams.py:2582-2602 | one group per section header plus the first, the first group carries the default title, and the groups together hold exactly the non-header parameters in order |
| UserParams.GroupedHeaderFree | peppy/lib/userparams.py:2582-2602 | no group holds a section header |
| UserParams.GroupedTitles | peppy/lib/userparams.py:2582-2602 | every group after the first is titled by a section header of the list |
| UserParams.GetSections | peppy/lib/userparams.py:2582-2602 | the loop of `getSections` computes the grouping |
| UserParams.SplitParamsSound | peppy/lib/userparams.py:2605-2630 | every parameter kept is visible, its keyword is not already shown, and local parameters go to the local list, the others to the global list |
| UserParams.SplitParamsExisting | peppy/lib/userparams.py:2617-2620 | the known keywords grow by exactly those of the superseded parameters |
| UserParams.SplitParamsComplete | peppy/lib/userparams.py:2605-2630 | every visible parameter whose keyword is not known at the end is kept, on its own side |
| UserParams.SplitParamsLength | peppy/lib/userparams.py:2605-2630 | the two lists together never hold more parameters than were given |
| UserParams.GetLocalAndGlobalParams | peppy/lib/userparams.py:2605-2632 | the loop computes the split and the caller's keyword table comes back updated |
| FindReplace.SerializeRoundTrip | peppy/plugins/find_replace.py:35-47 | what `unserialize` reads back from what `serialize` stored is the saved pair of strings, whatever else the storage holds |
| FindReplace.FindSettings.constructor | peppy/plugins/find_replace.py:27-33 | the case flags as given and all four strings empty |
| FindReplace.FindSettings.Serialize | peppy/plugins/find_replace.py:35-37 | the storage afterwards holds the user's find and replace strings under their two keys and every other entry unchanged |
| FindReplace.FindSettings.Unserialize | peppy/plugins/find_replace.py:39-47 | each user string becomes the stored one, or `''` when its key is missing |
| FindReplace.LiteralValue | peppy/plugins/find_replace.py:90-93 | a recognised string literal reads as the text between its two quotes |
| FindReplace.LowerChangesIffUpper | peppy/plugins/find_replace.py:97 | `findTxt != findTxt.lower()` holds exactly when the text has an upper-case letter |
| FindReplace.ExpandedSpec | peppy/plugins/find_replace.py:82-110 | unquoted text is searched as typed, case-sensitively exactly when it has an upper-case letter or the setting asks for it; quoted text is always case-sensitive and a valid literal is searched for by its value; no text is the empty search |
| FindReplace.CaseLike | peppy/plugins/find_replace.py:146-152 | a replacement character takes the case of the replaced character, and is kept when that one has no case |
| FindReplace.SmartCased | peppy/plugins/find_replace.py:136-161 | smart casing never changes the replacement's length |
| FindReplace.SmartCasedUpper | peppy/plugins/find_replace.py:137-139 | a match with no lower-case letter, the empty one included, gives the replacement in upper case |
| FindReplace.SmartCasedLower | peppy/plugins/find_replace.py:140-142 | a match with a lower-case letter and no upper-case one gives the replacement in lower case |
| FindReplace.SmartCasedMixed | peppy/plugins/find_replace.py:143-160 | a mixed-case match of the same length lends its case character by character; any other mixed-case match lends only the case of its first character, and an empty replacement stays empty |
| FindReplace.Replacement | peppy/plugins/find_replace.py:129-163 | without smart casing the replacement is used as typed, with it the smart-cased text |
| FindReplace.FirstMatch | peppy/plugins/find_replace.py:222-224 | a downward search answers the first match at or after the start, and -1 exactly when there is none |
| FindReplace.LastMatchFrom | peppy/plugins/find_replace.py:265 | searching up from a position answers the last match starting at or before it, or -1 |
| FindReplace.LastMatch | peppy/plugins/find_replace.py:265 | an upward search answers the last match that ends at or before the start, and no later match exists |
| FindReplace.FindService.constructor | peppy/plugins/find_replace.py:58-69 | the given settings are used, or fresh default ones; a remembered find string is expanded, and the replace string is expanded when an expanded one was remembered |
| FindReplace.FindService.ExpandSearchText | peppy/plugins/find_replace.py:82-110 | the expanded search text, and when asked the case flag set exactly when the search is case-sensitive |
| FindReplace.FindService.ExpandReplaceText | peppy/plugins/find_replace.py:112-119 | the same expansion with the flags untouched |
| FindReplace.FindService.SetFindString | peppy/plugins/find_replace.py:121-123 | the user string is remembered, its expansion becomes the search and the case flag follows it |
| FindReplace.FindService.SetReplaceString | peppy/plugins/find_replace.py:125-127 | the user string is remembered and its expansion becomes the replacement; the flags are untouched |
| FindReplace.FindService.Unserialize | peppy/plugins/find_replace.py:74-77 | the stored strings (or `''`) become the user strings and their expansions the current search and replacement |
| FindReplace.FindService.GetReplacement | peppy/plugins/find_replace.py:129-162 | the replacement of the settings, smart-cased against the matched text when the setting asks for it |
| FindReplace.FindService.DoFindNext | peppy/plugins/find_replace.py:202-241 | `(None, None)` exactly when there is nothing to search for; otherwise the start is the given one or the selection's end (its start when incremental) and the answer is the first match from there, or -1 |
| FindReplace.FindService.DoFindPrev | peppy/plugins/find_replace.py:243-272 | `(None, None)` exactly when there is nothing to search for; otherwise the start is the given one or the selection's start (moved past the search text when incremental) and the answer is the last match ending at or before it, or -1 |
| FindReplace.FilledAppend | peppy/plugins/find_replace.py:478-490 | filling a replacement piece by piece numbers the second piece's wildcards after the first piece's |
| FindReplace.FilledWildcard | peppy/plugins/find_replace.py:480-485 | each wildcard takes the group numbered by the wildcards before it, or `''` when there is no such group |
| FindReplace.FilledPlain | peppy/plugins/find_replace.py:486-487 | text without wildcards is copied as it is |
| FindReplace.WildcardReplacement | peppy/plugins/find_replace.py:461-493 | the loop of the wildcard `getReplacement` fills every wildcard of the replacement with its group |
| BitmapScroller.NormalizeBox | peppy/lib/bitmapscroller.py:34-46 | the normalised box has non-negative width and height of the same magnitude, covers exactly the same cells, and a box that was already normal is unchanged |
| BitmapScroller.NormalizeBoxIdempotent | peppy/lib/bitmapscroller.py:34-46 | normalising twice is the same as normalising once |
| BitmapScroller.BoxToExtent | peppy/lib/bitmapscroller.py:49-56 | the inclusive corners of the extent enclose exactly the cells of the box, whatever the signs of its width and height |
| BitmapScroller.PointInBox | peppy/lib/bitmapscroller.py:59-66 | a point is in the box exactly when both coordinates lie in the box's spans |
| BitmapScroller.PointOnBox | peppy/lib/bitmapscroller.py:69-79 | a point on the border is in the box |
| BitmapScroller.PointOnBoxIsBorder | peppy/lib/bitmapscroller.py:69-79 | for a box at least twice the thickness wide and high, a point is on the border exactly when it is in the box and within the thickness of one of its edges |
| BitmapScroller.BorderCursorIndex | peppy/lib/bitmapscroller.py:407-442 | the handle number is always one of 0..7 |
| BitmapScroller.BorderCursorIndexLayout | peppy/lib/bitmapscroller.py:407-442 | the left column (0, 7, 6) is chosen exactly near the left edge, the right column (2, 3, 4) exactly near the right edge and not the left, the top row (0, 1, 2) exactly near the top edge, and 5 when the point is near none of left, right or top |
| BitmapScroller.OrderedCorners | peppy/lib/bitmapscroller.py:478-486 | the corners come out ordered in each coordinate and hold the same coordinates as before |
| BitmapScroller.OrderedCornersIdempotent | peppy/lib/bitmapscroller.py:478-486 | ordering corners that are already ordered changes nothing |
| BitmapScroller.ClampedShift | peppy/lib/bitmapscroller.py:500-507 | the shift is the requested one when it keeps the selection inside the image, and otherwise the largest shift that brings it to the image's edge; a selection inside the image stays inside |
| BitmapScroller.RubberBand.constructor | peppy/lib/bitmapscroller.py:264-273 | a selection state initialiser: `__init__` sets no corners, so the corners and the mouse position, which the mouse events set later, are taken as inputs and stored as given |
| BitmapScroller.RubberBand.NormalizeImageCoords | peppy/lib/bitmapscroller.py:478-486 | the start corner becomes the top-left one and the last corner the bottom-right one |
| BitmapScroller.RubberBand.MoveWorldCoordsFromImageCoords | peppy/lib/bitmapscroller.py:492-510 | the mouse position is recorded, both corners move by the clamped shift, the selection keeps its size, and a selection inside the image stays inside |
| BitmapScroller.ZoomedIn | peppy/lib/bitmapscroller.py:548-552 | the new level is the old one times the factor, capped at the maximum |
| BitmapScroller.ZoomedOut | peppy/lib/bitmapscroller.py:554-558 | the new level is the old one divided by the factor, floored at the minimum |
| BitmapScroller.ZoomStaysInRange | peppy/lib/bitmapscroller.py:548-558 | zooming by a factor of at least 1 keeps a level within the limits within them |
| BitmapScroller.Scroller.constructor | peppy/lib/bitmapscroller.py:514-533 | the zoom limits are 16 and 1/16 and the level starts at 4 |
| BitmapScroller.Scroller.ZoomIn | peppy/lib/bitmapscroller.py:548-552 | the level becomes the capped product and stays within the limits |
| BitmapScroller.Scroller.ZoomOut | peppy/lib/bitmapscroller.py:554-558 | the level becomes the floored quotient and stays within the limits; a zero factor is outside the contract (Python's division error) |
| StcInterface.StyledBytes | peppy/stcinterface.py:208-220 | styled text holds two bytes per cell, the character then its style |
| StcInterface.Cells | peppy/stcinterface.py:208-220 | `AddStyledText` reads styled bytes pairwise into cells, ignoring an odd last byte |
| StcInterface.Chars | peppy/stcinterface.py:222-228 | the characters of the cells, one byte each, in order |
| StcInterface.EvenPositions | peppy/stcinterface.py:263-276 | the `[::2]` slice keeps exactly the bytes at even positions |
| StcInterface.StyledOf | peppy/stcinterface.py:215-218 | `'\0'.join(txt) + '\0'` interleaves every byte with a zero style byte, two bytes per input byte |
| StcInterface.ReadCells | peppy/stcinterface.py:208-220 | reading a file's bytes into the control gives cells whose characters are exactly those bytes, all with style 0 |
| StcInterface.WrittenChars | peppy/stcinterface.py:222-228 | `writeTo` recovers exactly the characters of the cells from the styled text |
| StcInterface.CellsRoundTrip | peppy/stcinterface.py:208-228 | styled text written from cells reads back as the same cells |
| StcInterface.BinaryCount | peppy/stcinterface.py:296-299 | the number of non-text bytes is between 0 and the number of bytes looked at |
| StcInterface.GuessedBinaryPrefix | peppy/stcinterface.py:278-310 | the guess only looks at the first `amount` characters: whatever follows them does not change it |
| StcInterface.TextIsNotBinary | peppy/stcinterface.py:278-310 | a document with no control or high bytes is never guessed binary, for any non-negative amount and positive percentage |
| StcInterface.NoBinaryBytes | peppy/stcinterface.py:296-299 | bytes that are all printable or tab-to-carriage-return count no binary byte |
| StcInterface.FlagNames | peppy/stcinterface.py:564-566 | the names of the set flags, each followed by a space |
| StcInterface.FlagNamesEmpty | peppy/stcinterface.py:564-569 | with every name non-empty, the names are empty exactly when no flag of the table is set |
| StcInterface.TransModType | peppy/stcinterface.py:548-571 | `UNKNOWN` exactly when no flag of the table is set, otherwise the set flags' names in table order, each followed by a space |
| StcInterface.EolTablesInverse | peppy/stcinterface.py:170-177 | the two line-separator tables are inverse to each other |
| StcInterface.EolStep | peppy/stcinterface.py:523-537 | one undo or redo edit adds one to the total, never lets the separator count pass the total, keeps an earlier "likely" and sets a new one only on the last step when every edit so far was a line separator and there are at least as many as lines less one |
| StcInterface.Stc.constructor | peppy/stcinterface.py:179-200 | a new control is empty with the caret at 0, the given line-separator mode and no undo statistics |
| StcInterface.Stc.StyledText | peppy/stcinterface.py:226 | two bytes per cell of the range |
| StcInterface.Stc.AddStyledText | peppy/stcinterface.py:218 | the cells read from the styled bytes are inserted at the caret and the caret moves past them |
| StcInterface.Stc.ReadFrom | peppy/stcinterface.py:208-220 | the file's bytes are inserted at the caret as unstyled cells and the caret moves past them; an empty file changes nothing |
| StcInterface.Stc.WriteTo | peppy/stcinterface.py:222-234 | the bytes written are exactly the document's characters |
| StcInterface.Stc.BinaryData | peppy/stcinterface.py:263-276 | the characters of positions start to end-1 |
| StcInterface.Stc.GuessBinary | peppy/stcinterface.py:278-310 | binary exactly when more of the first `amount` characters are out of the text range than the floor of that count divided by `percentage` |
| StcInterface.Stc.Linesep | peppy/stcinterface.py:379-384 | a separator exactly for the three known modes, and it is the one the inverse table maps to the mode |
| StcInterface.Stc.OnModified | peppy/stcinterface.py:510-541 | only an undo or redo that inserts or deletes text updates the statistics, by one `EolStep`, starting from empty statistics |
| StcInterface.Stc.CheckUndoEol | peppy/stcinterface.py:236-242 | line endings are detected again exactly when the statistics say an end-of-line change is likely, and the statistics are cleared |
| Major.NewMatch | peppy/major.py:489-496 | a match carries the view and no variables, is exact exactly when it is not generic, and is always editable |
| Major.NewMatchIgnoresFlags | peppy/major.py:489-496 | the `exact` and `editable` arguments have no effect on the match built |
| Major.ReadVarsStops | peppy/major.py:731-738 | the first non-blank piece that is not a single `name:val` pair ends the reading: nothing after it is read |
| Major.ReadVarsClean | peppy/major.py:731-738 | every variable read has a trimmed name and value free of `:` and `;` |
| Major.EmacsVarsClean | peppy/major.py:727-738 | the variables of any mode line are clean `name:val` pairs |
| Major.EmacsMode | peppy/major.py:720-752 | no mode without a match; otherwise the `mode:` form wins over the bare form, and the variables are those read from the text after the first `;` |
| Major.ParseVars | peppy/major.py:731-738 | the loop over `;`-separated pieces computes the variables of the specification |
| Major.ParseEmacs | peppy/major.py:720-752 | `parseEmacs`, given the regular expression's groups, computes the mode and variables of the specification |
| Major.FirstKeyword | peppy/major.py:667-669 | the first mode keyword equal to the emacs name ignoring case, and none exactly when there is no such keyword |
| Major.FirstAlias | peppy/major.py:671-673 | the mode of an alias equal to the emacs name ignoring case, and none exactly when there is no such alias |
| Major.ScanEmacs | peppy/major.py:665-674 | a found mode is always an exact match; a keyword match wins over an alias, and without a keyword match there is an answer exactly when an alias matches |
| Major.Present | peppy/major.py:826-859 | the matches collected are among the plugins' answers |
| Major.FirstExact | peppy/major.py:826-859 | the position of the first exact match, and none exactly when no match is exact |
| Major.Chosen | peppy/major.py:826-870 | the view of the first exact match; with none, the first generic one; with no match at all, Fundamental |
| Major.ModeLines | peppy/major.py:817-822 | a first line starting with `#!` is the bang path and the mode line is the first two lines together; otherwise the first line alone and no bang path |
| Major.ScanStage | peppy/major.py:826-834 | one stage returns the view of the first exact match over the generics so far and its own answers, and otherwise collects its generic answers after the earlier ones |
| Major.FirstExactAt | peppy/major.py:826-834 | an exact match preceded only by generic ones is the first exact match |
| Major.ScanBuffer | peppy/major.py:797-870 | the view is the one chosen over the emacs, then shell, then magic answers of all plugins, using the mode line and bang path read from the first two lines |
| Major.ScanStages | peppy/major.py:826-870 | the three stages in sequence pick the first exact match in emacs, shell, magic order, else the first generic match, else Fundamental |
| Major.ChosenPrefix | peppy/major.py:826-859 | once an earlier stage has an exact match, later stages cannot change the choice |
| Major.ExactInPrefix | peppy/major.py:826-859 | later answers never move the first exact match of the earlier ones |
| Major.UrlChosen | peppy/major.py:754-795 | the URL scan answers the view of the first exact match among URL answers then filename answers; otherwise the list of generic matches, none of them exact |
| Major.ScanUrl | peppy/major.py:754-795 | `scanURL`'s two loops compute that choice |
| Fundamental.IndentString | peppy/fundamental.py:161 | the indentation for a column is that many spaces (tabs are not modelled) |
| Fundamental.ReindentStringSpec | peppy/fundamental.py:152-164 | the previous line's indentation is copied when that line is just above; nothing is done when it is three or more lines back, and when it is two lines back exactly when it is indented less than the current line |
| Fundamental.ReindentedPosSpec | peppy/fundamental.py:131-145 | a caret before the line stays; a caret inside the old indentation goes to the end of the new one; a caret in the text keeps its distance from the end of the indentation |
| Fundamental.ReindentPosInText | peppy/fundamental.py:103-145 | the position `reindentLine` returns lies inside the re-indented document |
| Fundamental.NewlineText | peppy/fundamental.py:87-94 | at or before the indentation the new line is indented to the caret's column; at position 0 it gets no indentation; otherwise it gets the indentation `findIndent` gives |
| Fundamental.InsertedAround | peppy/fundamental.py:85-95 | inserting at the caret keeps the text before and after it and adds exactly the inserted length |
| Fundamental.BraceHighlightSpec | peppy/fundamental.py:25-55 | the brace before the caret is preferred to the one after it; a brace without a match is flagged bad; with no brace next to the caret nothing is lit |
| Fundamental.VerifyEditraType | peppy/fundamental.py:309-327 | no match exactly when Editra does not know the file type; a specific match (the extension) exactly when the type is the mode's keyword or its synonym; any other known type is generic |
| Fundamental.FundamentalStc.constructor | peppy/fundamental.py:256-259 | the control holds the given document and caret |
| Fundamental.FundamentalStc.ReindentLine | peppy/fundamental.py:103-145 | the first line and a line the rule leaves alone are unchanged; otherwise the leading indentation is replaced by the previous line's, and the caret position returned follows the rules above and lies in the new document |
| Fundamental.FundamentalStc.ElectricReturn | peppy/fundamental.py:68-99 | the line is re-indented first, then the line separator and the new indentation are inserted at the returned position and the caret moves past them |
| PythonMode.LineStyles | peppy/plugins/python_mode.py:125-126 | the styles `GetStyleAt` reports for a line's characters, one per character |
| PythonMode.IndentLength | peppy/plugins/python_mode.py:70-71 | the indentation position: every character before it is a blank and the one at it is not (or the line ends) |
| PythonMode.NextTabStop | peppy/plugins/python_mode.py:70 | a tab advances the column strictly, by at most one tab width |
| PythonMode.ColonXtra | peppy/plugins/python_mode.py:123-145 | the colon scan answers 0 or 1 |
| PythonMode.ColonXtraIgnoresTail | peppy/plugins/python_mode.py:131-138 | comments and default-styled blanks after a point do not change the scan's answer |
| PythonMode.ColonXtraAllIgnorable | peppy/plugins/python_mode.py:123-130 | a line of only comments and blanks opens no block |
| PythonMode.ColonXtraLast | peppy/plugins/python_mode.py:128-145 | the line opens a block exactly when its last significant character is an operator-styled colon and the scan before it stands at 0 |
| PythonMode.ColonScan | peppy/plugins/python_mode.py:123-145 | the loop over the line's positions computes the colon scan |
| PythonMode.FirstFound | peppy/plugins/python_mode.py:149-157 | the keyword position is -1 or a position in the line |
| PythonMode.FirstFoundNone | peppy/plugins/python_mode.py:156-157 | -1 exactly when no keyword occurs in the line |
| PythonMode.FirstFoundOccurs | peppy/plugins/python_mode.py:152-156 | a found position is where some keyword first occurs |
| PythonMode.FirstFoundLeast | peppy/plugins/python_mode.py:156 | the found position is the least first occurrence over all keywords |
| PythonMode.FirstKeyword | peppy/plugins/python_mode.py:149-157 | the loop over the twelve block keywords computes the least first occurrence |
| PythonMode.SearchNone | peppy/plugins/python_mode.py:148-164 | with no block-starting line at or above the current one the indentation stays the current line's |
| PythonMode.SearchNearest | peppy/plugins/python_mode.py:158-162 | the search answers the indentation of the nearest block-starting line at or above the current one |
| PythonMode.SplitDefinition | peppy/plugins/python_mode.py:148-164 | a well-formed two-line document whose first line opens a definition continued on the second |
| PythonMode.DefFoundAtStart | peppy/plugins/python_mode.py:150-157 | a line starting with `def` has its first keyword at position 0 |
| PythonMode.SplitDefinitionMissed | peppy/plugins/python_mode.py:158-164 | the search as written misses the `def` line above a continuation line and keeps the current indentation |
| PythonMode.SplitDefinitionFound | peppy/plugins/python_mode.py:158-162 | the corrected search finds that `def` line and answers its indentation 0 |
| PythonMode.ContinuationNotBlock | peppy/plugins/python_mode.py:158-160 | the continuation line starts no block |
| PythonMode.DefLineBlock | peppy/plugins/python_mode.py:158-161 | the `def` line starts a block at column 0 |
| PythonMode.Brackets | peppy/plugins/python_mode.py:174-184 | the collected brackets are in ascending position order and each is an operator-styled bracket character of the line, recorded one past its index |
| PythonMode.BracketsExact | peppy/plugins/python_mode.py:176-183 | every operator-styled bracket of the line is collected and nothing else is |
| PythonMode.NestSpec | peppy/plugins/python_mode.py:187-210 | the stack left over holds only openers, each from the stack or the line, in ascending order |
| PythonMode.NestCloser | peppy/plugins/python_mode.py:194-210 | a matching closer pops the top, a mismatched one or one with an empty stack clears the stack and stops |
| PythonMode.BracketList | peppy/plugins/python_mode.py:174-184 | the loops over bracket kinds and occurrences, then the sort, give the ascending bracket list |
| PythonMode.RunStack | peppy/plugins/python_mode.py:187-210 | the loop over the sorted brackets leaves the nesting stack |
| PythonMode.LineXtra | peppy/plugins/python_mode.py:120-145 | the block flag of a line is 0 or 1 |
| PythonMode.Adjust | peppy/plugins/python_mode.py:220 | the proposed indentation is never negative |
| PythonMode.FindIndentSpec | peppy/plugins/python_mode.py:112-220 | `findIndent`, with the corrected upward search of the first Findings row, never proposes a negative indentation |
| PythonMode.FindIndentSpecIs | peppy/plugins/python_mode.py:214-220 | the proposal is the base indentation plus the flag times the indent width, floored at 0, with flag -1 after `return`, `pass`, `break` or `continue` |
| PythonMode.FindIndentOpens | peppy/plugins/python_mode.py:146-164 | after a block-opening colon the proposal is one indent width past the indentation of the block line that the corrected search of the first Findings row finds |
| PythonMode.FindIndentCloses | peppy/plugins/python_mode.py:214-217 | after a block-ending statement the proposal is one indent width less, and 0 when that would go negative |
| PythonMode.FindIndentKeeps | peppy/plugins/python_mode.py:166-213 | otherwise the proposal is the base indentation: past the last unclosed bracket, or the line's own |
| PythonMode.StackTop | peppy/plugins/python_mode.py:211-213 | a non-empty leftover stack ends with the rightmost opener, taken from the line |
| PythonMode.LineStackTop | peppy/plugins/python_mode.py:211-213 | the top of the leftover stack is an operator-styled opener of the line and the rightmost one left open |
| PythonMode.TopOnLine | peppy/plugins/python_mode.py:211-213 | an opener of the line at the rightmost stack position is the open top |
| PythonMode.BracketIndent | peppy/plugins/python_mode.py:211-213 | with an unclosed bracket the base indentation is the position just past it |
| PythonMode.FoldPrecedence | peppy/plugins/python_mode.py:74 | the masked fold level, with `-` binding tighter than `&`, equals the level's depth for every depth below 1024 |
| PythonMode.Rem | peppy/plugins/python_mode.py:92-93 | the columns left after the tabs are fewer than one tab width |
| PythonMode.QuotRemSum | peppy/plugins/python_mode.py:92-93 | tabs times width plus the remaining spaces give back the column count |
| PythonMode.TabbedIndent | peppy/plugins/python_mode.py:91-93 | replacing every tab-width run of spaces by a tab gives the tabs first and the remaining spaces after |
| PythonMode.ReplaceRunStep | peppy/plugins/python_mode.py:93 | a run of at least one tab width of spaces starts with a tab |
| PythonMode.ReplaceShortRun | peppy/plugins/python_mode.py:93 | fewer spaces than a tab width are left alone |
| PythonMode.IndentTextSpec | peppy/plugins/python_mode.py:91-94 | the new indentation is all blanks and reaches exactly the fold level's column (0 for a negative level), with tabs or spaces |
| PythonMode.TabsThenSpaces | peppy/plugins/python_mode.py:91-94 | tabs then spaces reach exactly the intended column |
| PythonMode.ReindentDepth | peppy/plugins/python_mode.py:74-89 | the column is the fold depth, less 4 for an `else`, `elif`, `except` or `finally` keyword line indented like the line above |
| PythonMode.ReindentedLineSpec | peppy/plugins/python_mode.py:58-94 | the reindented line reaches the fold column and keeps the text after the old indentation intact |
| PythonMode.IndentReplaced | peppy/plugins/python_mode.py:75-94 | replacing the indentation target keeps the rest of the line and sets its column |
| PythonMode.IndentLengthOf | peppy/plugins/python_mode.py:71 | the indentation position of new blanks before non-blank text is their length |
| PythonMode.PythonStc.constructor | peppy/plugins/python_mode.py:223-224 | the control holds the given document |
| PythonMode.PythonStc.FindIndent | peppy/plugins/python_mode.py:112-220 | the method computes the specified proposal, with the corrected upward search of the first Findings row |
| PythonMode.PythonStc.Reindent | peppy/plugins/python_mode.py:58-94 | only the reindented line changes, to its specified text |
| PythonMode.FoldFor | peppy/plugins/python_mode.py:74-89 | the method computes the specified fold column |
| PythonMode.LineFlag | peppy/plugins/python_mode.py:120-145 | the method computes the line's block flag |
| PythonMode.BracketIndentOf | peppy/plugins/python_mode.py:166-213 | the indentation is the position past the last unclosed bracket, or unchanged |
| PythonMode.IsBlockLine | peppy/plugins/python_mode.py:149-160 | the method decides whether the line starts a block |
| PythonMode.SearchBack | peppy/plugins/python_mode.py:148-164 | the upward search loop computes the corrected search |
| ChangeLogMode.EntryName | peppy/plugins/changelog_mode.py:121-126 | a line names an entry, and is returned whole, exactly when it is non-empty and its first (up to) four characters are all digits; otherwise the name is empty |
| ChangeLogMode.LastLine | peppy/plugins/changelog_mode.py:108-109 | a negative last line stands for the line count, any other is kept |
| ChangeLogMode.FoldEntriesSound | peppy/plugins/changelog_mode.py:112-119 | every node is a level-1 item for an entry line in range, named by that line and spanning to the last line, in increasing line order |
| ChangeLogMode.FoldEntriesComplete | peppy/plugins/changelog_mode.py:113-119 | every entry line in range has its node |
| ChangeLogMode.IterFoldEntries | peppy/plugins/changelog_mode.py:99-119 | the generator's loop yields exactly the specified nodes |
| ChangeLogMode.YieldEntry | peppy/plugins/changelog_mode.py:114-118 | one pass of the loop yields the line's node exactly when the line names an entry, and leaves the rest of the specified nodes still to come |
| ChangeLogMode.Header | peppy/plugins/changelog_mode.py:40-41 | the header starts with the date and two spaces, ends with a tab and `* `, and has the length of its parts plus nine characters and two separators |
| ChangeLogMode.AddedEntrySpec | peppy/plugins/changelog_mode.py:44-54 | afterwards the document starts with the header and the caret is right after it; the old text follows intact, and nothing is inserted exactly when the document already started with the header |
| ChangeLogMode.AddedEntryIdempotent | peppy/plugins/changelog_mode.py:45-49 | adding the same entry twice inserts it only once |
| ChangeLogMode.ChangeLogStc.constructor | peppy/plugins/changelog_mode.py:62 | a control holding the given text, caret at 0 |
| ChangeLogMode.ChangeLogStc.AddEntry | peppy/plugins/changelog_mode.py:33-55 | the document becomes the specified one and the caret sits right after the header, which the document now starts with |
| MinibufferInput.CompletionsSpec | peppy/actions/minibuffer.py:446-452 | every completion is an item containing the typed text, and every item containing it is a completion |
| MinibufferInput.CompletionsAppend | peppy/actions/minibuffer.py:449-451 | completions keep the list's order: completing a concatenation concatenates the completions |
| MinibufferInput.Complete | peppy/actions/minibuffer.py:446-452 | the loop over the static list collects exactly the completions |
| MinibufferInput.HexRun | peppy/actions/minibuffer.py:268 | the leading run of hex digits: all hex digits, and the character after it is not one |
| MinibufferInput.MswHexNoH | peppy/actions/minibuffer.py:268-273 | text without an `h` is not rewritten |
| MinibufferInput.HexRunOfRun | peppy/actions/minibuffer.py:268 | a run of hex digits followed by a non-hex character is the whole leading run |
| MinibufferInput.MswHexToken | peppy/actions/minibuffer.py:268-273 | a run of hex digits followed by `h` becomes `0x` and the run, and the rest is rewritten on its own |
| MinibufferInput.ConvertAllSpec | peppy/actions/minibuffer.py:291-293 | converting the pieces succeeds exactly when every piece converts, giving each piece's number in order |
| MinibufferInput.RangeOfSpec | peppy/actions/minibuffer.py:288-297 | a range is accepted exactly when the text splits at commas into two pieces that both convert, and is the pair of their numbers |
| MinibufferInput.RangeNeedsComma | peppy/actions/minibuffer.py:294-297 | text without a comma is never a range |
| MinibufferInput.RangeConvert | peppy/actions/minibuffer.py:288-297 | the loop over the pieces, stopping at the first failure, gives the specified range |
| MinibufferInput.ConvertNoneExtends | peppy/actions/minibuffer.py:292-293 | once a piece fails, the whole conversion fails, so the loop may stop there |
| MinibufferInput.GetResult | peppy/actions/minibuffer.py:224-235 | a value comes back exactly when the conversion succeeds and there is no error; otherwise the error is the minibuffer's message, shown in the status bar exactly when asked to |
| MinibufferInput.MultiInfo | peppy/actions/minibuffer.py:464-471 | an IndexError exactly when labels are given and their count differs from the parts'; otherwise each kind is paired with its label, or with none when no labels are given |
| MinibufferInput.FinishFromSpec | peppy/actions/minibuffer.py:494-505 | the focus goes to the first part whose answer has an error; the action runs exactly when no part failed, on every part's value in order |
| MinibufferInput.SubMinibuffer.constructor | peppy/actions/minibuffer.py:77-88 | a part of the given kind and label, passing the focus to nothing yet |
| MinibufferInput.MultiMinibuffer.constructor | peppy/actions/minibuffer.py:464-473 | a composite with one chained part per entry of its info |
| MinibufferInput.MultiMinibuffer.CreateWindow | peppy/actions/minibuffer.py:475-489 | new parts are appended, one per entry, each fresh, each passing the focus to the next |
| MinibufferInput.MultiMinibuffer.Finished | peppy/actions/minibuffer.py:494-505 | the loop over the parts gives the specified outcome |
| PeppyApp.UseNewTabChoices | peppy/main.py:101-112 | choice 0 always opens a new tab, choice 1 does so exactly when the current mode is not a temporary one, and any other choice reuses the current tab |
| PeppyApp.LeetChar | peppy/main.py:139 | characters outside the translation table are kept, those in it map into its replacement alphabet |
| PeppyApp.LeetTable | peppy/main.py:139 | each of `abegilorstz` maps to its partner in `4639!102572` |
| PeppyApp.TranslateLeetSpec | peppy/main.py:147-150 | the translation keeps the length, leaves any message containing `%` untouched, and otherwise leaves no translatable letter behind |
| PeppyApp.LeetCharFixed | peppy/main.py:139 | translating a character twice is translating it once, and only `%` becomes `%` |
| PeppyApp.TranslateLeetIdempotent | peppy/main.py:147-150 | translating a message twice is translating it once |
| PeppyApp.IndexOf | peppy/main.py:352 | `list.index`: the first position holding the value |
| PeppyApp.RemoveAt | peppy/main.py:354 | deleting one position shortens the list by one |
| PeppyApp.SplitAt | peppy/main.py:354 | deleting a position keeps what comes before and after it |
| PeppyApp.CountRemoveAt | peppy/main.py:354 | deleting a position lowers the count of its value by one and keeps every other count |
| PeppyApp.WithoutRemoveAt | peppy/main.py:351-354 | deleting one `-v` does not change the list left once all are gone, so each loop turn keeps the loop's outcome |
| PeppyApp.WithoutNone | peppy/main.py:351 | with no `-v` left the loop stops with the list unchanged |
| PeppyApp.WithoutSpec | peppy/main.py:350-354 | after the loop no `-v` is left, every other argument keeps its count, and none was there exactly when the count is 0 |
| PeppyApp.CountAbsent | peppy/main.py:351 | a value not in the list counts 0 |
| PeppyApp.CountWithout | peppy/main.py:351-354 | removing every `-v` keeps every other argument's count |
| PeppyApp.RemoveFirstSpec | peppy/main.py:367-384 | removing an option present once shortens the list by one and lowers only its own count; an absent option leaves the list unchanged |
| PeppyApp.RemoveFirstKeeps | peppy/main.py:367-384 | removing one option keeps every other argument |
| PeppyApp.ConfDirLastFails | peppy/main.py:360-364 | a trailing `-c` with nothing after it fails the command line as written |
| PeppyApp.ConfDirSpec | peppy/main.py:359-365 | where the code as written succeeds it agrees with the corrected one; `-c` with a value after it takes that value as the configuration directory and removes both, and otherwise the arguments are kept and the directory is empty |
| PeppyApp.FlagsSpec | peppy/main.py:367-384 | `--no-server`, `--test` or `-t` keeps the server from starting, `--no-splash` keeps the splash screen off, `--no-setuptools` sets its flag, and a single `--no-server` is removed from the arguments |
| PeppyApp.Messages | peppy/main.py:884-894 | with file arguments the other instance receives one message per argument followed by the end marker; without any it receives nothing |
| PeppyApp.MessagesSpec | peppy/main.py:886-893 | URLs, absolute paths and options are sent as given; every other name is sent as its absolute path |
| PeppyApp.SendToOtherInstance | peppy/main.py:884-894 | the loop sends exactly the specified messages |
| PeppyApp.FileArgsSpec | peppy/main.py:573 | the files opened are exactly the collected arguments that do not start with `-` |
| PeppyApp.ConfigFiles | peppy/main.py:590-593 | four files, in order: the base preferences, the system's and the node's `.cfg`, and the override preferences |
| PeppyApp.LoadedFilesInOrder | peppy/main.py:595-607 | the existing files are loaded in that order, a missing one skipped |
| PeppyApp.LoadedFilesSpec | peppy/main.py:589-607 | when all exist all four are loaded; the base preferences come first and the override preferences last whenever they exist |
| PeppyApp.Peppy.constructor | peppy/main.py:201 | an application over the given arguments, with no verbosity, configuration directory, remote arguments or flags |
| PeppyApp.Peppy.CountVerbose | peppy/main.py:350-354 | verbosity counts the `-v` arguments, and all of them are removed |
| PeppyApp.Peppy.TakeConfDir | peppy/main.py:359-364 | the arguments and directory become the corrected `-c` handling's |
| PeppyApp.Peppy.RemoveOption | peppy/main.py:367-384 | reports whether the option was present and removes its first occurrence |
| PeppyApp.Peppy.TakeFlags | peppy/main.py:367-384 | the flag options are removed and the flags set as specified |
| PeppyApp.Peppy.Bootstrap | peppy/main.py:338-386 | verbosity, then the configuration directory, then the flags are taken from the arguments, each step on what the previous one left; the `-c` step is the corrected guard of the second Findings row |
| PeppyApp.Peppy.LoadRemoteArgs | peppy/main.py:560-583 | an argument is collected; the end marker opens the collected file arguments in a new frame or in the top frame, as the preference says, and clears the collection |
| PeppyApp.Peppy.LoadConfig | peppy/main.py:589-607 | the loop loads exactly the specified files |
| ConfigPrefs.ConfigDirNameSpec | configprefs.py:67-75 | the directory name starts with `.` (`_` on win32) followed by the given name less one leading dot, so `.peppy` and `peppy` name the same directory |
| ConfigPrefs.PosixJoin | configprefs.py:75 | the joined path starts with the home directory and ends with the name |
| ConfigPrefs.HierarchyNamesSpec | configprefs.py:128-139 | the hierarchy keeps the resolution order's classes other than `debugmixin`, `ConfigMixin` and `object`, and only those |
| ConfigPrefs.SearchInFirst | configprefs.py:186-189 | a search over the hierarchy answers the value of the first class that has the option |
| ConfigPrefs.SearchInNone | configprefs.py:186-194 | when no class has the option the search finds nothing |
| ConfigPrefs.LookupSpec | configprefs.py:183-194 | a user setting on any class of the hierarchy wins over every application default, the first class having it deciding; without one the first class with an application default decides |
| ConfigPrefs.LookupMissing | configprefs.py:194 | an option set nowhere reads as `None` |
| ConfigPrefs.SetThenLookup | configprefs.py:200-206 | after setting an option on the most specific class, reading it back gives the value set |
| ConfigPrefs.SetInOthers | configprefs.py:204-206 | setting one option leaves every other section and option as it was |
| ConfigPrefs.LowerTwice | configprefs.py:221 | lower-casing twice is lower-casing once |
| ConfigPrefs.IsTrueTextSpec | configprefs.py:219-223 | case does not matter, a missing value is false, and `1`, `yes`, `true`, `on` read as true while `0`, `no`, `false`, `off` do not |
| ConfigPrefs.MixedCaseDefaultLost | configprefs.py:159-166 | an application default named `showSplash` is never found as written, though the intended case-sensitive defaults have it |
| ConfigPrefs.AppDefaultFound | configprefs.py:159-166 | with case-sensitive defaults every default is found under its own name when the user has not set it |
| ConfigPrefs.HierarchalConfig.constructor | configprefs.py:153-157 | an empty user configuration, the application defaults stored under their own names as corrected in the third Findings row (as written they are found only in lower case), and a cache consistent with the class hierarchy |
| ConfigPrefs.HierarchalConfig.GetHierarchy | configprefs.py:128-139 | the answer is the class's hierarchy, now cached for that class, and every cached entry stays correct |
| ConfigPrefs.HierarchalConfig.SearchPass | configprefs.py:186-193 | one pass over the hierarchy returns the first class's value for the option |
| ConfigPrefs.HierarchalConfig.Get | configprefs.py:183-194 | the value read is the specified lookup over the class's hierarchy, on the corrected application defaults of the third Findings row |
| ConfigPrefs.HierarchalConfig.SetOption | configprefs.py:200-206 | the value is stored, lower-cased key, under the most specific class; an empty hierarchy raises `IndexError`, modelled as failure, and stores nothing |
| ConfigPrefs.HierarchalConfig.GetBoolean | configprefs.py:219-223 | the option reads as true exactly when its looked-up value is one of the true spellings |

## Left out

- Toolkit widgets, events, menus, status-bar messages, splash screens, sockets, the plugin manager and locale objects are not modelled. The model keeps only the decisions they act on.
- Files are not read or written: the bytes of numpy memory maps, `save`, pickling and ConfigParser files. A cube's payload is an already-decoded `seq<int>`, which `Cube.Cube.Open` takes as an input; a configuration is a map from section to option to value.
- Cube.Cube.Open: models only a `file:` URL. `setURL`, the `IOError`s for other protocols or a missing URL, and the slicing of the map at the data offset are not modelled.
- Byte order, `byteswap` and typed numpy views are not modelled. The `byteswap()` calls in `getSpectra` and `getLineOfSpectra` discard their result in the source, so they have no effect on the values anyway.
- `HyperspectralFileFormat` plugin discovery (dynamic imports and globbing) is not part of this model.
- `normalizeUnits` depends on a units-to-scale table in `peppy/hsi/utils.py`, which is not part of this model. The table is a parameter `scale`.
- Regular expressions are not modelled. The emacs `-*- ... -*-` pattern, `scanShell`, `scanFilename`, the magic tests and the wildcard service's match become the matched groups or the plugins' answers, given as inputs.
- The MSW hex pattern `[0-9a-fA-F]+h` is modelled by hand as `MinibufferInput.MswHex`.
- `compiler.parse` in `expandSearchText` is modelled only for a one-line literal with no escapes and no inner quote of its own kind. Any other quoted text is searched as typed.
- `eval` in `IntMinibuffer` is a parameter. `FloatMinibuffer` is not modelled, because it works on floating point.
- `locale.atof` in the integer preference converter is modelled as parsing a signed decimal integer.
- `FloatParam` is not modelled, because it works on floating point.
- Floating-point coordinate scaling in the bitmap scroller is not modelled: `getImageCoords`, crosshair placement and `RubberBand.recalc`.
- Zoom levels are `real`, with no rounding.
- `translatePigLatin`, `setVerbosity`, `setVerboseLevel` and the debug prints are not modelled. The prints include the ones in `getHierarchy` and `HierarchalConfig.get`.
- `getHomeDir`, `HomeConfigDir.check`, `loadObject` and `saveObject` are not modelled. The home directory is an input, and only the configuration directory's name is modelled.
- `ConfigParser` interpolation, its `DEFAULT` section and `getint` are not modelled.
- `HierarchalConfig.loadConfig` and `saveConfig` are not modelled.
- Undo grouping (`BeginUndoAction`/`EndUndoAction`) is not modelled. The ChangeLog insertion is a single change to the document.
- `detectLineEndings` relies on `peppy/pype/parsers.py`, which is not part of this model. `StcInterface.Stc.CheckUndoEol` only reports that re-detection is due.
- Case mapping and whitespace are ASCII only.
- Python dictionaries iterate in an unspecified order; the model handles this differently in each place:
  - `GlobalPrefs.setDefaults` iterates the keys in sorted order, and the result is proved independent of the order.
  - `_getAllSubscripts` takes the order of `d.keys()` as a parameter, because its default subscript depends on it.
- `FocalPlaneView.getBand` calls `getFocalPlaneInPlace`, which `peppy/hsi/cube.py` does not define (peppy/hsi/view.py:305). It is not modelled.
- The progress path of `CubeView.loadBands` refers to an undefined name `bands` (peppy/hsi/view.py:115). `loadBands` is modelled without progress.
- Cube.GetPixel, Cube.BandRaw, Cube.SpectraRaw, Cube.LineOfSpectraRaw: require in-range indices. Negative numpy indices counting from the end, and the `IndexError` for indices past the end, are not modelled.
- Cube.Cube.GetSpectra, Cube.Cube.GetLineOfSpectra: require a bad-band list of one entry per band. The numpy broadcasting error otherwise is not modelled.
- Cube.Cube.GetBadBandList: requires masks at least `bands` long when another cube is given. The `IndexError` otherwise is not modelled.
- Cube.Cube.GetBandListByWavelength, Cube.Cube.GuessDisplayBands: require wavelength and bad-band lists covering every band, and a non-zero scale for the cube's units. The source's `IndexError` and `ZeroDivisionError` are not modelled.
- Cube.GuessWavelengthUnits: requires a non-empty wavelength list. Its only caller, `verifyAttributes`, checks this.
- Cube.Widened: requires non-empty data. An empty band or spectrum instead makes the calling method fail and leave the extrema unchanged, as numpy's `min` raises.
- View.CubeView.GetCoords: requires at least one displayed index. The `IndexError` otherwise is not modelled.
- View.CubeView.LoadBands, View.CubeView.Show: require displayed indexes inside the cube. The `IndexError` otherwise is not modelled.
- UserParams.NewIndexChoice, UserParams.NewKeyedChoice: require a non-empty choice list. The `IndexError` on `index_to_value[0]` otherwise is not modelled.
- UserParams.GlobalPrefs.ConfigToText: requires every stored user value to be renderable by its parameter. Outside that, `valueToText` is not modelled and a value renders as "".
- UserParams.AllSubscripts: requires the default key, or the bare name, to be present in the dictionary.
- BitmapScroller.Scroller.ZoomOut, BitmapScroller.ZoomedOut: require a non-zero factor. The `ZeroDivisionError` is not modelled.
- StcInterface.Stc.GuessBinary: requires a non-negative amount and a non-zero percentage. Python's slicing with a negative bound and the `ZeroDivisionError` are not modelled.
- Fundamental.FundamentalStc.ReindentLine, Fundamental.FundamentalStc.ElectricReturn: require the control's positions to lie inside the document, as the control guarantees.
- PythonMode.PythonStc.Reindent: takes the fold level as an input instead of asking the lexer.
- ChangeLogMode.ChangeLogStc.AddEntry: takes the formatted date, the user's name and address, and the line separator as inputs.

## Behaviour worth noting

- `getBandListByWavelength` breaks a tie between two bracketing bands in favour of the higher band, not the lower one (peppy/hsi/cube.py:555-561). See `Cube.BandListTieGoesHigher`.
- Only the lower band of a bracketing pair is checked against the bad-band list (peppy/hsi/cube.py:552).
- `guessWavelengthUnits` looks at the last wavelength, not the longest (peppy/hsi/cube.py:426).
- `guessScaleFactor` leaves unsigned bytes out of the integer types, so they get 1.0 (peppy/hsi/cube.py:401-406).
- `getBandInPlace` widens the running extrema like the copying variants do (peppy/hsi/cube.py:454-459).
- `initializeSizes` ignores a byte order of 0, because the test is on its truth value (peppy/hsi/cube.py:330-331).
- `guessDisplayBands` indexes the first element of a possibly empty list, which raises `IndexError` (peppy/hsi/cube.py:413). The model answers `None` there.
- For BIL and BSQ, `getLineOfSpectra` masks a transposed view of the payload, so reading a line zeroes its bad bands in the cube itself, and on a file opened read-only the mask raises (peppy/hsi/cube.py:490, 658-661, 700-703). See `Cube.Cube.GetLineOfSpectra`.
- `findIndent` and the members built on it use the corrected upward search of the first Findings row. `Peppy.Bootstrap` and `Peppy.TakeConfDir` use the corrected `-c` guard of the second. The configuration object uses the corrected application defaults of the third.
- `loadBands` empties its band list before the loop, so when the first `getBand` raises on an empty image the view is left with no bands and its old range (peppy/hsi/view.py:101-107). See `View.CubeView.LoadFrom`.

## Findings

| source | as written | input that shows it | evidently intended | confidence | as-written member | corrected member |
|---|---|---|---|---|---|---|
| peppy/plugins/python_mode.py:158-164 | The upward search for the line that opens a block reads each earlier line with `GetLine`, which keeps the line separator. It then takes the keyword's position as the line's end minus that length, which is one separator before the keyword. A block keyword on an earlier line is therefore looked up at the wrong style and missed. | Search upward from the second line of the document `def f(a,` / `      b):`, with `def` styled as a keyword. The search as written misses the `def` line and keeps the current indentation. | Earlier lines are read without their separator, so the search finds the nearest block-opening line above, here the `def` line at column 0. | high; not executed | PythonMode.SplitDefinitionMissed | PythonMode.SplitDefinitionFound |
| peppy/main.py:360-364 | The guard `len(sys.argv) > index` always holds, so a trailing `-c` reads past the end of the arguments and raises `IndexError` at start-up. | The arguments `peppy -c` | The guard `len(sys.argv) > index + 1`: a trailing `-c` is ignored and the configuration directory stays the default. | high; not executed | PeppyApp.ConfDirLastFails | PeppyApp.ConfDirSpec |
| configprefs.py:159-166 | The application defaults are stored while the parser still lower-cases option names. The parser is made case-sensitive only afterwards, so a default with an upper-case letter in its name is never found. | An application default `showSplash` in section `Peppy` | The parser is case-sensitive before the defaults are stored, so every default is found under its own name. | high; not executed | ConfigPrefs.MixedCaseDefaultLost | ConfigPrefs.AppDefaultFound |
