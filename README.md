# A verified model of Adventure Game Studio's integer core

This project models, in Dafny, the deterministic integer and byte logic that
Adventure Game Studio (AGS) keeps in its engine, its common library and its
editor, and proves what that logic promises:

- the sprite cache: its slot table with asset, locked and remapped flags, the
  most-recently-used list, byte accounting against the cache limit, and
  eviction of the least recently used unlocked asset sprite;
- the script string API (Truncate, Substring, ReplaceCharAt, StartsWith,
  EndsWith, Replace, Contains, `my_strncpy`) on character sequences;
- the GUI rules: the `@macro@` expander, the guarded setters that mark a GUI
  changed only when a value differs, the z-order sort, popup removal and the
  coordinate adjustments;
- the GUI slider's press/move/release state machine and its stream and
  savegame formats;
- the WFN bitmap font: the little-endian offset table, text width and height,
  glyph row layout and the replacement of extended characters with `?`;
- the editor's pixel routines: sprite resolution flags, edge cropping, mask
  validation, walkable-area extents, transparency rewriting, alpha-channel
  fix-ups, and the conversion of old-style interactions into script;
- the byte-buffer search and replace the editor uses to patch version
  resources;
- the graphics drivers' bookkeeping: the sprite-batch parent stack, the
  effect pool, the shared-texture reference map, stage screens, the upload of
  bitmaps into video-memory texels, and, for Direct3D 9 and the software
  renderer, the format mappings, texture sizing and tiling, gamma ramps,
  display-mode guards, draw lists with their backups, and the driver bitmap
  records;
- the Allegro bitmap accessors the pixel routines are built on;
- the CSCI dialog system's window and control slot tables;
- frame pacing, with time as an input;
- the welcome pane's tip-of-the-day cursor and `<a href>` link extraction.

Each source file becomes one module. Files that compute values become
datatypes, functions and lemmas. Objects that change their fields become
classes whose methods carry `modifies` clauses, and loops stay loops, each
proved against a specification function. Two shared modules hold the
`Option`/`Result` wrappers (`wrappers.dfy`) and C's truncating division and
`size_t` wrap-around (`cint.dfy`).

Behaviour of the code worth noting, which the model follows:

- `BitmapToVideoMem`, even without filtering, does not turn a mask pixel
  into plain 0 when the next pixel is opaque. The fix-up runs and gives the
  mask texel that neighbour's colour with alpha 0.
- The 32-bit path with `has_alpha` copies pixels as they are and never runs
  the fix-up.
- `SetGamma` fills the green and blue ramps from the default *red* ramp.
- A `@macro@` token with no closing `@` still expands.
- `String.Replace` with an empty search string never advances its scan.
- Every interaction command type 0..47 has a case in the script conversion.
  The trailing block for inventory conditions is reachable.
- `SetNativeResolution` rebuilds the active batch through the base driver's
  `OnSetNativeRes`.
- `DestroyAllStageScreens` drops the main stage screen's bitmap without
  releasing its DDB.
- `skipMissedTicks` reads the clock twice.
- `CSCIDrawWindow` raises its bounds counter before it may quit for lack of
  a free slot; the quit is fatal, so the model returns the error with the
  tables untouched.
- In the welcome pane, a tip whose `<a href>` has no closing `</a>` gives a
  link length of `linkEnd - linkOffset`, which is negative.

Constants and behaviour taken from headers that are not part of this model
(the standard AGS and Allegro values):

- `MAX_SPRITE_INDEX`, `MIN_SPRITE_INDEX` = 1, `DEFAULTCACHESIZE_KB` = 128 * 1024.
- Sprite flags: `SPF_HIRES` = 0x01, `SPF_VAR_RESOLUTION` = 0x20.
- GUI versions: `kGuiVersion_unkn_104` = 104, `kGuiVersion_350` = 119.
- CSCI control types: `CNT_PUSHBUTTON`..`CNT_TEXTBOX` = 1..4.
- Walkable areas and coordinates: `MAX_WALK_AREAS` = 15, `HIRES_COORD_MULTIPLIER` = 2.
- Mask colours: 0, 0xF81F and 0xFF00FF.
- The flip values.
- `Rect::IsEmpty` is right < left or bottom < top; `Size::IsNull` is a
  width or height that is not positive; `ClampToRect` clamps each edge.
- A screen effect's colour defaults to -1, and the "no texture" ID is
  `UINT32_MAX`.
- `get_fixed_pixel_size` multiplies by the upscale factor.
- C# `IndexOf` and `StartsWith` are read as ordinal comparisons.

## Model

| member | source | states |
|---|---|---|
| SpriteCacheModel.Resize | Common/ac/spritecache.cpp:162-164 | the vector resize: exactly n entries, the old ones kept in place and the new ones set to the default |
| SpriteCacheModel.FindNode | Common/ac/spritecache.cpp:225 | the position of a slot's MRU list node: when found it holds that node and no earlier entry does; when not found no entry holds it |
| SpriteCacheModel.DisposedAll | Common/ac/spritecache.cpp:279-292 | the slot table after DisposeAll: exactly the unlocked asset sprites lose their image, nothing else changes |
| SpriteCacheModel.SpriteCache.constructor | Common/ac/spritecache.cpp:43-49 | an empty cache over the game's sprite infos, with maximum DEFAULTCACHESIZE_KB*1024 and zero cache and locked sizes |
| SpriteCacheModel.SpriteCache.GetSpriteSlotCount | Common/ac/spritecache.cpp:71-74 | the slot count is the length of the slot table |
| SpriteCacheModel.SpriteCache.DoesSpriteExist | Common/ac/spritecache.cpp:184-210 | a slot exists iff its index is in range and it has a loaded image or is an asset |
| SpriteCacheModel.SpriteCache.GetDataIndex | Common/ac/spritecache.cpp:323-326 | a remapped slot reads its data from slot 0, any other slot from itself |
| SpriteCacheModel.SpriteCache.SetMaxCacheSize | Common/ac/spritecache.cpp:76-80 | the new maximum is stored and the cache is then trimmed as by FreeMem(0): afterwards the MRU list is empty or the cache size is below the maximum |
| SpriteCacheModel.SpriteCache.Reset | Common/ac/spritecache.cpp:82-98 | all slots and the MRU list are dropped and both sizes become 0; the sprite infos and the maximum are kept |
| SpriteCacheModel.SpriteCache.EnlargeTo | Common/ac/spritecache.cpp:155-166 | -1 for a negative index or one above MAX_SPRITE_INDEX; an in-range index is returned with nothing changed; otherwise both tables grow to exactly index+1 entries, the new ones empty |
| SpriteCacheModel.SpriteCache.SetSprite | Common/ac/spritecache.cpp:100-118 | an unusable index or a null bitmap changes no slot (the tables may still have grown); otherwise the slot holds the image, flagged exactly LOCKED, with size 0, and every other slot is kept |
| SpriteCacheModel.SpriteCache.SetEmptySprite | Common/ac/spritecache.cpp:120-130 | an unusable index changes no slot; otherwise the tables grow to hold the index, the slot becomes a remapped placeholder with no image, sprite 0's size and sprite 0's info (and, when asked, marked an unlocked asset), and every other slot, the MRU list and the sizes are kept |
| SpriteCacheModel.SpriteCache.SubstituteBitmap | Common/ac/spritecache.cpp:132-143 | only an existing sprite gets the new bitmap; nothing else changes |
| SpriteCacheModel.SpriteCache.GetFreeIndex | Common/ac/spritecache.cpp:168-182 | the lowest index from MIN_SPRITE_INDEX with no sprite, reset to defaults; when every slot is taken, one slot is appended and the old count returned (-1 when the table is already at its maximum) |
| SpriteCacheModel.SpriteCache.DisposeOldest | Common/ac/spritecache.cpp:249-277 | removes exactly the MRU tail; only an unlocked asset tail sprite loses its image and has its size subtracted (size_t wrap-around) |
| SpriteCacheModel.SpriteCache.DisposeAll | Common/ac/spritecache.cpp:279-292 | the slots become DisposedAll of the old slots, the cache size becomes the locked size and the MRU list is emptied |
| SpriteCacheModel.SpriteCache.FreeMem | Common/ac/spritecache.cpp:236-247 | on exit the MRU list is empty or the cache size is below maximum minus space; the MRU list only loses its tail and only unlocked asset images are freed |
| SpriteCacheModel.SpriteCache.RemapSpriteToSprite0 | Common/ac/spritecache.cpp:378-389 | the slot takes sprite 0's info and size, loses its image and is flagged remapped; nothing else changes |
| SpriteCacheModel.SpriteCache.LoadSprite | Common/ac/spritecache.cpp:328-376 | an out-of-range index changes nothing and returns 0; a slot the file has no bitmap for is remapped to sprite 0 and 0 is returned; otherwise the slot's info takes the stored width and height, the slot holds initialize_sprite's bitmap, is locked iff it is sprite 0 and records width*height*bpp, which is returned; the make-room pass may free other unlocked asset images (and this one, when it is still on the MRU list) and only shortens the MRU list |
| SpriteCacheModel.SpriteCache.LoadedSize | Common/ac/spritecache.cpp:364-365 | the size a load accounts: 0 when the file has no bitmap for the slot, else the stored width times height times the converted bitmap's bytes per pixel |
| SpriteCacheModel.SpriteCache.MoveMruToFront | Common/ac/spritecache.cpp:222-226 | the MRU entry holding the slot's node moves to the front and the rest keep their order; the node identities stay distinct |
| SpriteCacheModel.SpriteCache.PushMru | Common/ac/spritecache.cpp:230-231 | a fresh node naming the slot goes to the MRU front and the slot records it |
| SpriteCacheModel.SpriteCache.Get | Common/ac/spritecache.cpp:212-234 | operator[]: none out of range; external or locked sprites are returned without touching the MRU list; a loaded sprite moves to the MRU front; an unloaded one goes through LoadSprite: when the file has no bitmap the result is none and the slot shows sprite 0's size and info, otherwise the result is initialize_sprite's bitmap (unless the make-room pass freed it), the slot's info takes the stored size, and the slot is pushed on the MRU front |
| SpriteCacheModel.SpriteCache.UnlinkMru | Common/ac/spritecache.cpp:313 | the MRU entry holding the node is erased and the others keep their order |
| SpriteCacheModel.SpriteCache.LockSlot | Common/ac/spritecache.cpp:316-318 | the slot becomes locked and the given size is added to both the maximum and the locked size |
| SpriteCacheModel.SpriteCache.Precache | Common/ac/spritecache.cpp:294-321 | a non-asset or out-of-range index changes nothing; an asset is locked and exactly its size (its load size when unloaded, 0 when already locked, its stored size otherwise) is added to the maximum and to the locked size; a loaded unlocked sprite is also taken off the MRU list, and a loaded sprite keeps every other slot, the infos and the cache size |
| SpriteCacheModel.FreedTransitive | Common/ac/spritecache.cpp:241-246 | freeing only unlocked asset images composes over successive disposals |
| SpriteCacheModel.MovedToFrontDistinct | Common/ac/spritecache.cpp:225 | moving an entry to the front keeps the MRU node identities distinct |
| SpriteCacheModel.RemovedDistinct | Common/ac/spritecache.cpp:313 | erasing an entry keeps the MRU node identities distinct |
| ScriptString.LowerChar | Engine/ac/string.cpp:122-130 | ASCII lower-casing as the case-insensitive comparisons use it: upper-case letters move by 32, every other character is kept, and NUL stays NUL |
| ScriptString.Lower | Engine/ac/string.cpp:122-130 | lower-cases a string character by character, keeping its length |
| ScriptString.IsNullOrEmpty | Engine/ac/string.cpp:37-43 | 1 exactly when the string is null or empty, otherwise 0 |
| ScriptString.Append | Engine/ac/string.cpp:49-54 | the result is the first string followed by the second |
| ScriptString.ReplaceCharAt | Engine/ac/string.cpp:68-89 | an error iff the index is outside the string; otherwise the same length, the new byte at the index and every other character kept (a zero byte ends the string at the index) |
| ScriptString.Truncate | Engine/ac/string.cpp:91-103 | an error iff the length is negative; otherwise the prefix of min(length, len) characters |
| ScriptString.Substring | Engine/ac/string.cpp:105-120 | an error iff the length is negative or the index is outside [0, len]; otherwise the min(length, len - index) characters from the index |
| ScriptString.StrCmp | Engine/ac/string.cpp:122-130 | the sign of strcmp: 0 iff the strings are equal, and the empty string sorts below any other |
| ScriptString.StrCmpAntisymmetric | Engine/ac/string.cpp:122-130 | swapping the operands negates the comparison |
| ScriptString.CompareTo | Engine/ac/string.cpp:122-130 | a sign that is 0 iff the strings are equal (case-sensitive) or equal after lower-casing (case-insensitive) |
| ScriptString.StartsWith | Engine/ac/string.cpp:132-140 | 1 iff the string begins with the checked text, compared exactly or after ASCII lower-casing, else 0 |
| ScriptString.EndsWith | Engine/ac/string.cpp:142-156 | 0 when the checked text is longer than the string; otherwise 1 iff the trailing characters equal it, exactly or after ASCII lower-casing |
| ScriptString.GetChars | Engine/ac/string.cpp:219-223 | the character code at an index inside the string, 0 outside it |
| ScriptString.Replace | Engine/ac/string.cpp:158-205 | the result is ReplaceSpec: a left-to-right scan that writes the replacement for each non-overlapping match and copies every other character |
| ScriptString.ReplaceAt | Engine/ac/string.cpp:166-179 | one scan step moves the pointer forward (past the match or by one) and the pieces it writes add up to ReplaceSpec |
| ScriptString.ReplaceStep | Engine/ac/string.cpp:168-178 | ReplaceSpec at a position unfolds to the replacement followed by the rest after the match, or to the current character followed by the rest |
| ScriptString.ReplaceWithoutMatch | Engine/ac/string.cpp:166-179 | a text in which the search string never occurs comes back unchanged |
| ScriptString.ReplaceBySelf | Engine/ac/string.cpp:166-179 | case-sensitive replacement of a text by itself is the identity |
| ScriptString.ReplaceCharsFrom | Engine/ac/string.cpp:166-179 | every character of the result comes from the input or from the replacement |
| ScriptString.FirstIndexOf | Engine/ac/string.cpp:229-251 | the first position where the text occurs, or -1 iff it occurs nowhere |
| ScriptString.StrContains | Engine/ac/string.cpp:229-251 | the index of the first case-insensitive occurrence, with no occurrence before it, or -1 iff there is none |
| ScriptString.MyStrncpy | Engine/ac/string.cpp:343-352 | copies the whole source when it is shorter than len (or len is negative), else exactly len characters, then writes the terminator and leaves the rest of the buffer alone |
| GuiEngine.GUIMain.constructor | Common/gui/guimain.h:161-177 | a GUI with the given kind and rectangle (defaults assumed, the constructor body is not part of this model): no colours, images, padding or transparency, z-order 0, visible, not concealed and not marked changed |
| GuiEngine.GUIMain.IsDisplayed | Common/gui/guimain.h:70-76 | a GUI is displayed iff it is visible and not concealed |
| GuiEngine.SetSize | Engine/ac/gui.cpp:126-140 | sizes below 1 fail and change nothing; otherwise width and height become the game-coordinate sizes, the GUI is marked changed iff either differs from before, and no other field changes |
| GuiEngine.SetTransparency | Engine/ac/gui.cpp:200-205 | accepted iff the percentage is in 0..100, and then stored in the legacy 255 scale with no other field changed; a rejected value changes nothing |
| GuiEngine.GetPopupYPos | Engine/ac/gui.cpp:189-192 | reads the popup line |
| GuiEngine.SetPopupYPos | Engine/ac/gui.cpp:194-198 | a text window ignores the new popup line, any other GUI stores it; no other field changes and no change is marked |
| GuiEngine.SetBackgroundGraphic | Engine/ac/gui.cpp:217-222 | the slot is stored and the GUI is marked changed iff the value differs; no other field changes |
| GuiEngine.GetBackgroundGraphic | Engine/ac/gui.cpp:224-228 | 0 iff the stored image is below 1, otherwise the stored image |
| GuiEngine.SetBackgroundColor | Engine/ac/gui.cpp:230-237 | the colour is stored and the GUI is marked changed iff it differs; no other field changes |
| GuiEngine.GetBackgroundColor | Engine/ac/gui.cpp:239-242 | reads the background colour |
| GuiEngine.SetBorderColor | Engine/ac/gui.cpp:244-253 | a text window ignores the write; a normal GUI stores the colour and is marked changed iff it differs; no other field changes; reading back gives 0 or the colour |
| GuiEngine.GetBorderColor | Engine/ac/gui.cpp:255-260 | 0 for a text window, the foreground colour otherwise |
| GuiEngine.SetTextColor | Engine/ac/gui.cpp:262-271 | a normal GUI ignores the write; a text window stores the colour and is marked changed iff it differs; no other field changes; reading back gives the colour or 0 |
| GuiEngine.GetTextColor | Engine/ac/gui.cpp:273-278 | the foreground colour for a text window, 0 otherwise |
| GuiEngine.GetTextPadding | Engine/ac/gui.cpp:280-283 | reads the padding |
| GuiEngine.SetTextPadding | Engine/ac/gui.cpp:285-289 | only a text window takes the new padding; no other field changes and no change is marked |
| GuiEngine.ScanMacroName | Engine/ac/gui.cpp:391-405 | a macro name is at most 20 characters, holds no '@', and the scan stays inside the text |
| GuiEngine.MacroValue | Engine/ac/gui.cpp:407-428 | a value exists iff the name, ignoring case, is score, totalscore, scoretext, gamename or overhotspot |
| GuiEngine.ReadMacroName | Engine/ac/gui.cpp:391-405 | the loop collects exactly the name ScanMacroName describes and stops where it does |
| GuiEngine.ReplaceMacroTokens | Engine/ac/gui.cpp:383-438 | the output starts empty and ends as ExpandFrom of the whole text: plain characters copied in order, recognised macros replaced, any other '@' copied with scanning resumed after it |
| GuiEngine.ExpandStep | Engine/ac/gui.cpp:389-436 | one step of the expansion: a plain character, a recognised macro, or an unrecognised '@' |
| GuiEngine.ExpandWithoutMacros | Engine/ac/gui.cpp:432-436 | text without '@' is copied unchanged |
| GuiEngine.ScanWholeName | Engine/ac/gui.cpp:391-405 | a short name without '@' ending at '@' or at the end of the text is read whole, and the scan stops after the '@' or at the end |
| GuiEngine.KnownMacroExpands | Engine/ac/gui.cpp:407-417 | "@name@" for a recognised name, in any case, becomes its value and expansion continues after the closing '@' |
| GuiEngine.UnterminatedMacroExpands | Engine/ac/gui.cpp:397-399 | a recognised macro left open at the end of the text is still replaced by its value |
| GuiEngine.InsertByZ | Engine/ac/gui.cpp:440-448 | insertion into the draw order keeps GUI numbers in range and adds exactly the inserted GUI to the multiset |
| GuiEngine.InsertByZBounded | Engine/ac/gui.cpp:440-448 | a lower bound on all z-orders survives an insertion |
| GuiEngine.InsertByZSorted | Engine/ac/gui.cpp:440-448 | inserting into an order sorted by z-order keeps it sorted |
| GuiEngine.SortByZOrder | Engine/ac/gui.cpp:440-448 | the sorted draw order is a permutation of the old one, ascending by z-order |
| GuiEngine.AdjustXStep | Engine/ac/gui.cpp:499-515 | one GUI moves x only right, and only to its right edge plus 2 when it is displayed, covers the point, is not transparent and does not reach the right of the screen |
| GuiEngine.AdjustXFrom | Engine/ac/gui.cpp:499-515 | the x position never moves left |
| GuiEngine.AdjustYStep | Engine/ac/gui.cpp:522-537 | one GUI moves y only down, and only to its bottom edge plus 2 when it is displayed, covers y, is not transparent and is not taller than the limit |
| GuiEngine.AdjustYFrom | Engine/ac/gui.cpp:522-537 | the y position never moves up |
| GuiEngine.AdjustXNoDisplayedGui | Engine/ac/gui.cpp:499-501 | with no displayed GUI the x position is unchanged |
| GuiEngine.GuiSystem.constructor | Engine/ac/gui.cpp:440-448 | the GUIs in their own order, nothing popped up and nothing under the mouse |
| GuiEngine.GuiSystem.ZOrders | Engine/ac/gui.cpp:440-443 | the z-order of every GUI, by GUI number |
| GuiEngine.GuiSystem.Views | Engine/ac/gui.cpp:496-540 | one placement view per GUI |
| GuiEngine.GuiSystem.UpdateGuiZOrder | Engine/ac/gui.cpp:445-448 | the draw order becomes a permutation of itself sorted ascending by z-order |
| GuiEngine.GuiSystem.SetZOrder | Engine/ac/gui.cpp:158-161 | the GUI gets the new z-order and no other of its fields changes; the draw order becomes the z-order sort of the old one, a sorted permutation of it; the popup and mouse state are kept |
| GuiEngine.GuiSystem.RemovePopupInterface | Engine/ac/gui.cpp:316-329 | nothing changes unless the GUI is the popped one; then nothing is popped, the GUI is concealed and no other of its fields changes, the mouse moves below its popup line when above it, it is no longer the GUI under the mouse, and every other GUI and the draw order are kept |
| GuiEngine.GuiSystem.AdjustXForGuis | Engine/ac/gui.cpp:496-517 | x is unchanged when GUIs are off while disabled, otherwise the loop gives AdjustXFrom over all GUIs; it never moves left |
| GuiEngine.GuiSystem.AdjustYForGuis | Engine/ac/gui.cpp:519-540 | y is unchanged when GUIs are off while disabled, otherwise the loop gives AdjustYFrom over all GUIs; it never moves up |
| GuiSliderModel.FileWords | Common/gui/guislider.cpp:269-278 | the game data record is six words in the order MinValue, MaxValue, Value, HandleImage, HandleOffset, BgImage |
| GuiSliderModel.FileWordCount | Common/gui/guislider.cpp:245-267 | a record of GUI version 3.5.0 or later is 6 words; one older than kGuiVersion_unkn_104 is 4 (three values and the pressed flag) |
| GuiSliderModel.ParseFile | Common/gui/guislider.cpp:245-267 | the reader consumes exactly the record, reads the pressed flag iff the version is older than 3.5.0, and before kGuiVersion_unkn_104 sets HandleImage -1, HandleOffset 0 and BgImage 0 |
| GuiSliderModel.FileRoundTrip | Common/gui/guislider.cpp:245-278 | a record written by WriteToFile reads back whole, with nothing pressed read and the rest of the stream left |
| GuiSliderModel.SaveWords | Common/gui/guislider.cpp:291-300 | the savegame record is six words in the order BgImage, HandleImage, HandleOffset, MinValue, MaxValue, Value |
| GuiSliderModel.ParseSave | Common/gui/guislider.cpp:280-289 | the savegame reader consumes exactly six words |
| GuiSliderModel.SaveRoundTrip | Common/gui/guislider.cpp:280-300 | save then load gives back the same fields and the rest of the stream |
| GuiSliderModel.Clamp | Common/gui/guislider.cpp:84 | Math::Clamp: the value when inside [lo, hi], else the nearer bound |
| GuiSliderModel.GUISlider.constructor | Common/gui/guislider.cpp:27-41 | MinValue 0, MaxValue 10, Value 0, no images or offset, not pressed, handle range 0 |
| GuiSliderModel.GUISlider.Fields | Common/gui/guislider.cpp:245-300 | the six serialised fields of the slider |
| GuiSliderModel.GUISlider.IsHorizontal | Common/gui/guislider.cpp:43-46 | horizontal exactly when Width > Height |
| GuiSliderModel.GUISlider.UpdateMetrics | Common/gui/guislider.cpp:78-142 | MinValue >= MaxValue is repaired to MaxValue = MinValue+1; Value becomes the old Value clamped into the range; a missing handle sprite becomes 0; the handle range is the travel along the slider's long side, at least 1; no other field changes |
| GuiSliderModel.GUISlider.OnMouseDown | Common/gui/guislider.cpp:212-217 | sets the pressed flag, changes no other field and returns true |
| GuiSliderModel.GUISlider.OnMouseMove | Common/gui/guislider.cpp:219-238 | nothing happens unless pressed; otherwise Value becomes the position clamped into [MinValue, MaxValue], a change is marked iff Value changed, and the slider is activated |
| GuiSliderModel.GUISlider.OnMouseUp | Common/gui/guislider.cpp:240-243 | clears the pressed flag and changes no other field |
| GuiSliderModel.GUISlider.ReadFromFile | Common/gui/guislider.cpp:245-267 | the slider's own fields become what ParseFile reads from the slider's own words, the pressed flag is read only before 3.5.0, no other field changes, and the rest of the stream is returned |
| GuiSliderModel.GUISlider.WriteToFile | Common/gui/guislider.cpp:269-278 | appends the slider's six own words in file order, and they parse back to the slider's fields |
| GuiSliderModel.GUISlider.ReadFromSavegame | Common/gui/guislider.cpp:280-289 | the slider's own fields become what ParseSave reads from the slider's own words, six words are consumed and no other field changes |
| GuiSliderModel.GUISlider.WriteToSavegame | Common/gui/guislider.cpp:291-300 | appends the slider's six own words in savegame order, and they parse back to the slider's fields |
| WfnFont.Signature | Common/font/wfnfontrenderer.cpp:42 | the 15 signature bytes are the characters of "WGT Font File  " |
| WfnFont.LE16 | Common/font/wfnfontrenderer.cpp:75-78 | a 16-bit little-endian word: the low byte first, the value below 65536 |
| WfnFont.GlyphAddress | Common/font/wfnfontrenderer.cpp:69-91 | psp_get_char: defined iff the table entry lies in the font, and then the word at table + 2*char, the table address being the word at byte 15 |
| WfnFont.RowBytes | Common/font/wfnfontrenderer.cpp:193 | ((width - 1) / 8) + 1 bytes per row, at least 1, and exactly enough bits for a width of 1 or more |
| WfnFont.MapChar | Common/font/wfnfontrenderer.cpp:105 | in a font without extended characters bytes of 128 and above become '?', every other byte is kept |
| WfnFont.GlyphOf | Common/font/wfnfontrenderer.cpp:175 | the glyph looked up for a character after the '?' mapping; its header and bitmap lie inside a valid font |
| WfnFont.CharWidth | Common/font/wfnfontrenderer.cpp:177-183 | the glyph's first 16-bit word, in 0..65535 |
| WfnFont.CharHeight | Common/font/wfnfontrenderer.cpp:185-190 | the glyph's second 16-bit word, in 0..65535 |
| WfnFont.TextWidthAppend | Common/font/wfnfontrenderer.cpp:94-118 | the width of a text is additive over concatenation (the empty text has width 0) |
| WfnFont.TextHeightIsMax | Common/font/wfnfontrenderer.cpp:120-146 | the height bounds every glyph's height and equals one of them when the text is not empty |
| WfnFont.Sanitised | Common/font/wfnfontrenderer.cpp:56-62 | every byte above 127 becomes '?' and every other byte is kept |
| WfnFont.SanitisedCharSame | Common/font/wfnfontrenderer.cpp:105 | a byte and its sanitised form have the same width and height in a non-extended font |
| WfnFont.SanitisedMeasuresSame | Common/font/wfnfontrenderer.cpp:51-146 | sanitising a text does not change its width or height in a non-extended font |
| WfnFont.CLen | Common/font/wfnfontrenderer.cpp:56 | the C string length: the index of the first NUL |
| WfnFont.RowCellsBounds | Common/font/wfnfontrenderer.cpp:198-211 | every cell of a glyph row lies on that row's line, between x and x + n*mult |
| WfnFont.RowCellIffBit | Common/font/wfnfontrenderer.cpp:198-211 | a cell of the row is painted exactly when its bit is set |
| WfnFont.GlyphCellsBounds | Common/font/wfnfontrenderer.cpp:197-214 | every painted cell lies between y and y + rows*mult |
| WfnFont.GlyphCellIffBit | Common/font/wfnfontrenderer.cpp:197-214 | the square at (x + col*mult, y + row*mult) is painted exactly when bit col of row row is set, most significant bit first |
| WfnFont.GlyphBitInside | Common/font/wfnfontrenderer.cpp:192-199 | inside a glyph of a valid font each bit test reads a byte of that glyph's bitmap |
| WfnFont.LoadedBuffer | Common/font/wfnfontrenderer.cpp:245-249 | the file read into a buffer 40 bytes longer than the file |
| WfnFont.ExtendedIffTableHoldsMoreThan128 | Common/font/wfnfontrenderer.cpp:258 | a font is extended iff the table can hold at least 129 two-byte entries before the end of the file |
| WfnFont.FontFileName | Common/font/wfnfontrenderer.cpp:225 | the file name is "agsfnt" followed by the font number in decimal and ".wfn" |
| WfnFont.ParseFontFile | Common/font/wfnfontrenderer.cpp:236-258 | succeeds iff the first 15 bytes are the signature, keeping the loaded buffer and the extended flag (file length - table address)/2 > 128 |
| WfnFont.PrintRow | Common/font/wfnfontrenderer.cpp:198-211 | the inner loop of printchar paints exactly the cells of RowCells for the row |
| WfnFont.WidthStep | Common/font/wfnfontrenderer.cpp:158-159 | one more character adds its width times the scale |
| WfnFont.WFNFontRenderer.constructor | Common/font/wfnfontrenderer.cpp:43 | no fonts loaded, with the given text scale |
| WfnFont.WFNFontRenderer.EnsureTextValidForFont | Common/font/wfnfontrenderer.cpp:51-63 | an extended font leaves the text alone; otherwise the C string becomes Sanitised of itself and the bytes after the NUL are kept |
| WfnFont.WFNFontRenderer.GetTextWidth | Common/font/wfnfontrenderer.cpp:94-118 | the sum of the glyph widths times wtext_multiply |
| WfnFont.WFNFontRenderer.GetTextHeight | Common/font/wfnfontrenderer.cpp:120-146 | the largest glyph height times wtext_multiply, 0 for the empty text |
| WfnFont.WFNFontRenderer.PrintChar | Common/font/wfnfontrenderer.cpp:164-216 | returns charWidth * wtext_multiply and paints exactly the cells of GlyphCells for the mapped character |
| WfnFont.WFNFontRenderer.RenderText | Common/font/wfnfontrenderer.cpp:149-162 | the pen ends at x plus the text width times the scale |
| WfnFont.WFNFontRenderer.LoadFromDisk | Common/font/wfnfontrenderer.cpp:218-261 | opens agsfnt<N>.wfn or else agsfnt0.wfn; succeeds iff a file opened and its signature matches, and then records its buffer and extended flag; on failure nothing changes |
| WfnFont.WFNFontRenderer.FreeMemory | Common/font/wfnfontrenderer.cpp:263-267 | the font's buffer is dropped and nothing else changes |
| AgsNative.UpdateSpriteResolution | Editor/AGS.Native/agsnative.cpp:254-263 | VAR_RESOLUTION is set iff the sprite is variable-resolution, and HIRES iff it is variable- and high-resolution |
| AgsNative.UpdateSpriteResolutionKeepsOtherFlags | Editor/AGS.Native/agsnative.cpp:256-262 | every flag bit other than HIRES and VAR_RESOLUTION is kept |
| AgsNative.UpdateReadsOnlyOtherFlags | Editor/AGS.Native/agsnative.cpp:256 | two flag words that agree outside HIRES and VAR_RESOLUTION give the same result |
| AgsNative.UpdateSpriteResolutionOverrides | Editor/AGS.Native/agsnative.cpp:254-263 | applying the update twice equals applying only the second one |
| AgsNative.GetPixel | Editor/AGS.Native/agsnative.cpp:292 | the pixel at column x, row y inside the bitmap, -1 outside |
| AgsNative.MapPixels | Editor/AGS.Native/agsnative.cpp:1569-1576 | every pixel is rewritten by the rule, and the result says whether any pixel met the test beforehand |
| AgsNative.ValidateMask | Editor/AGS.Native/agsnative.cpp:1561-1589 | a missing or non-8-bit mask is refused and nothing changes; otherwise exactly the pixels >= maxColour become 0 and the room is marked modified iff one existed |
| AgsNative.ScanColumn | Editor/AGS.Native/agsnative.cpp:1661-1669 | after column ww every area pixel in columns 0..ww lies between its area's Top and Bottom, and each extent is witnessed by a row holding the area |
| AgsNative.CalculateWalkableAreas | Editor/AGS.Native/agsnative.cpp:1653-1672 | every pixel of area a (a <= 15) lies between Top[a] and Bottom[a]; Top[a] is the room height or a row holding a, Bottom[a] is 0 or a row holding a |
| AgsNative.SortOutTransparency | Editor/AGS.Native/agsnative.cpp:1270-1330 | LEAVEALONE returns 0 and changes nothing; otherwise transcol is the mask colour or the chosen corner pixel; NONE turns transcol pixels into transcol-1 (16 for 0); the rest swap transcol to the mask colour and the mask colour to the replacement colour |
| AgsNative.RemoveTransparencyLeavesNoTransparent | Editor/AGS.Native/agsnative.cpp:1292-1307 | with SIMP_NONE no pixel keeps the transparent colour |
| AgsNative.SwapTransparencyMasksExactly | Editor/AGS.Native/agsnative.cpp:1320-1328 | after the swap a pixel is the mask colour iff it was the transparent colour |
| AgsNative.AlphaZeroIffBelow | Editor/AGS.Native/agsnative.cpp:2341 | a 32-bit pixel has alpha 0 iff it is below 0x1000000 |
| AgsNative.SetRgbMaskFromAlphaChannel | Editor/AGS.Native/agsnative.cpp:2334-2347 | exactly the pixels with alpha 0 become MASK_COLOR_32 |
| AgsNative.SetOpaqueAlphaChannel | Editor/AGS.Native/agsnative.cpp:2349-2360 | every pixel other than MASK_COLOR_32 gets alpha 0xFF, the others are kept |
| AgsNative.OpaqueAlphaIsOpaque | Editor/AGS.Native/agsnative.cpp:2356-2357 | after the opaque pass a pixel is the mask colour or has alpha 255 |
| AgsNative.MaskThenOpaque | Editor/AGS.Native/agsnative.cpp:2334-2360 | the mask pass then the opaque pass gives the mask colour for alpha-0 pixels and the RGB with alpha 255 for the others |
| AgsNative.FirstInkIsFirst | Editor/AGS.Native/agsnative.cpp:290-299 | FirstInk is the first line with ink at or after i, or the line count when none has ink |
| AgsNative.LastInkIsLast | Editor/AGS.Native/agsnative.cpp:301-310 | LastInk is the last line with ink at or before i, or -1 when none has ink |
| AgsNative.LowEdgeIsUnionEdge | Editor/AGS.Native/agsnative.cpp:282-333 | no sprite has ink before the low edge, and some sprite has ink on it unless it is the line count |
| AgsNative.HighEdgeIsUnionEdge | Editor/AGS.Native/agsnative.cpp:282-333 | no sprite has ink after the high edge, and some sprite has ink on it unless it is 0 |
| AgsNative.LineHasInk | Editor/AGS.Native/agsnative.cpp:291-298 | the inner scan finds ink iff some pixel of the line differs from the mask colour |
| AgsNative.FirstInkLine | Editor/AGS.Native/agsnative.cpp:290-299 | the first column or row with ink, or the line count |
| AgsNative.LastInkLine | Editor/AGS.Native/agsnative.cpp:301-310 | the last column or row with ink, or -1 |
| AgsNative.SpriteInkLines | Editor/AGS.Native/agsnative.cpp:289-332 | the four scans of one sprite: first and last column, first and last row with ink |
| AgsNative.FindInkBox | Editor/AGS.Native/agsnative.cpp:280-333 | left/top are the union low edges and right/bottom the union high edges over all sprites |
| AgsNative.SymmetricEdges | Editor/AGS.Native/agsnative.cpp:338-346 | the margins become equal, the box only grows and stays inside the sprite |
| AgsNative.CropBoxInside | Editor/AGS.Native/agsnative.cpp:338-359 | when the crop applies the box lies inside the sprites |
| AgsNative.InkInsideCropBox | Editor/AGS.Native/agsnative.cpp:335-359 | every non-mask pixel of every sprite lies inside the crop box, so cropping loses no ink |
| AgsNative.CopyRegion | Editor/AGS.Native/agsnative.cpp:364-365 | a new bitmap of the given size and depth holding the region of the source at (left, top) |
| AgsNative.CropEach | Editor/AGS.Native/agsnative.cpp:361-369 | each result is the crop region of the corresponding sprite |
| AgsNative.CropSpriteEdges | Editor/AGS.Native/agsnative.cpp:276-374 | returns 1 iff the box is at least 1x1 and differs from the sprite size, and then gives each sprite's crop, the box at the sprite's origin; otherwise 0 and the sprites are kept |
| AgsNative.CtxDataToGameSize | Editor/AGS.Native/agsnative.cpp:1079-1086 | the size is kept when the contexts agree; into a non-legacy game a high-resolution size becomes its half rounded toward zero, at least 1 (r*2 <= val < (r+1)*2 for val >= 2); into a legacy high-resolution game it is doubled |
| AgsNative.CtxSizeRoundTrip | Editor/AGS.Native/agsnative.cpp:1079-1086 | doubling then halving gives back any positive size, and 1 stays 1 |
| AllegroBitmap.Bitmap.constructor | Common/gfx/allegrobitmap.h:90-110 | a new bitmap of the given width, height, depth and mask colour |
| AllegroBitmap.Bitmap.IsEmpty | Common/gfx/allegrobitmap.h:86-89 | empty iff the width or the height is zero |
| AllegroBitmap.Bitmap.GetSize | Common/gfx/allegrobitmap.h:98-101 | the size is the bitmap's width and height |
| AllegroBitmap.Bitmap.GetBPP | Common/gfx/allegrobitmap.h:112-115 | the fewest whole bytes holding colorDepth bits |
| AllegroBitmap.Bitmap.GetLineLength | Common/gfx/allegrobitmap.h:123-126 | a scan line is exactly width times bytes per pixel, which has room for width pixels of colorDepth bits |
| AllegroBitmap.Bitmap.GetDataSize | Common/gfx/allegrobitmap.h:118-121 | the buffer is one scan line per row |
| AllegroBitmap.DataSizeZeroIffEmpty | Common/gfx/allegrobitmap.h:86-126 | with a non-zero depth the data size is 0 iff the bitmap is empty |
| AllegroBitmap.Bitmap.GetScanLine | Common/gfx/allegrobitmap.h:137-140 | a line exists iff 0 <= index < height, and then it holds that row's pixels |
| AllegroBitmap.Bitmap.GetScanLineForWriting | Common/gfx/allegrobitmap.h:218-221 | a writable line exists iff 0 <= index < height, and it designates that row |
| FrameTimer.SleepTime | Engine/ac/timer.cpp:90-102 | the sleep is never negative and is 0 without pacing |
| FrameTimer.PacedFrame | Engine/ac/timer.cpp:90-105 | with pacing, consecutive frame timestamps are one duration apart, the wait reaches the frame it waits for, an on-time frame is waited for exactly and the schedule ends at most two frames behind the clock |
| FrameTimer.UnpacedFrame | Engine/ac/timer.cpp:76-88 | without pacing nothing is slept, the last tick becomes the old next frame and the next frame is now |
| FrameTimer.KeepingUpAdvancesEvenly | Engine/ac/timer.cpp:90-105 | while the game never lags more than three frames, n frames move the schedule by exactly n durations |
| FrameTimer.TickIsFloor | Engine/ac/timer.cpp:53 | the tick is 1000000 / fps rounded down, and at least 1 microsecond for rates up to a million |
| FrameTimer.TimerState.constructor | Engine/ac/timer.cpp:31-38 | 40 frames a second, no rate set, not maxed, both timestamps at the start time |
| FrameTimer.TimerState.GetFrameDuration | Engine/ac/timer.cpp:42-48 | 0 when the rate is maxed, else the tick |
| FrameTimer.TimerState.SetTimerFps | Engine/ac/timer.cpp:50-59 | the tick follows the new rate, pacing stops from 1000 fps, the next frame is one tick after the last tick and the old rate is returned |
| FrameTimer.TimerState.IsTimerFpsMaxed | Engine/ac/timer.cpp:61-64 | whether the rate is maxed |
| FrameTimer.TimerState.WaitForNextFrame | Engine/ac/timer.cpp:66-114 | the timestamps move as Advance says and the sleep is SleepTime; the rate is unchanged |
| FrameTimer.TimerState.SkipMissedTicks | Engine/ac/timer.cpp:116-120 | both timestamps come from the clock, one reading each |
| WelcomePane.IndexOfFrom | Editor/AGS.Editor/Panes/WelcomePane.cs:98 | -1 or an occurrence of the pattern at or after the start |
| WelcomePane.IndexOfFromIsFirst | Editor/AGS.Editor/Panes/WelcomePane.cs:98 | the search gives -1 iff there is no occurrence at or after the start, and otherwise no earlier one |
| WelcomePane.IndexOf | Editor/AGS.Editor/Panes/WelcomePane.cs:93 | -1 or an occurrence of the pattern |
| WelcomePane.IndexOfIsFirst | Editor/AGS.Editor/Panes/WelcomePane.cs:93 | -1 iff the pattern does not occur, otherwise its first occurrence |
| WelcomePane.TipWithoutLink | Editor/AGS.Editor/Panes/WelcomePane.cs:87-111 | a tip without an opening tag is shown unchanged, with no target and an empty link area |
| WelcomePane.LinkTargetBetweenQuotes | Editor/AGS.Editor/Panes/WelcomePane.cs:93-97 | the link target is what stands between the first opening tag and the next quote, and holds no quote |
| WelcomePane.FirstOccurrence | Editor/AGS.Editor/Panes/WelcomePane.cs:93 | an occurrence preceded by no character that starts the pattern is the first |
| WelcomePane.OpenTagAfter | Editor/AGS.Editor/Panes/WelcomePane.cs:93-96 | the opening tag after a prefix without '<' is found at the end of that prefix |
| WelcomePane.QuoteAfter | Editor/AGS.Editor/Panes/WelcomePane.cs:97 | a target without quotes ends at the first quote |
| WelcomePane.CloseTagAfter | Editor/AGS.Editor/Panes/WelcomePane.cs:100-104 | the closing tag after text without '<' is found there, and cutting it out joins the two sides |
| WelcomePane.ShowLinkedTip | Editor/AGS.Editor/Panes/WelcomePane.cs:93-106 | with the tag, quote and closing tag located, the view has the cut text, the link area from the tag to the closing tag and the target |
| WelcomePane.CutOpenTag | Editor/AGS.Editor/Panes/WelcomePane.cs:98 | cutting the opening tag through its '>' joins what stood before it to what followed |
| WelcomePane.WellFormedTip | Editor/AGS.Editor/Panes/WelcomePane.cs:87-111 | a tip pre<a href="target">anchor</a>post shows as pre+anchor+post with the link area on the anchor and the target as the link |
| WelcomePane.LinkClicked | Editor/AGS.Editor/Panes/WelcomePane.cs:113-123 | fails iff there is no target; a "help:" target opens help on the rest, any other target opens as a URL unchanged |
| WelcomePane.HelpLinkOpensHelp | Editor/AGS.Editor/Panes/WelcomePane.cs:115-122 | "help:" + keyword opens help on that keyword; any other target opens as a URL |
| WelcomePane.NextTipIndex | Editor/AGS.Editor/Panes/WelcomePane.cs:79-83 | the next index is (index + 1) mod count, inside the list |
| WelcomePane.NextTipIndexN | Editor/AGS.Editor/Panes/WelcomePane.cs:77-85 | n clicks keep the cursor inside the list |
| WelcomePane.NextTipCycles | Editor/AGS.Editor/Panes/WelcomePane.cs:77-85 | n clicks move the cursor to (index + n) mod count |
| WelcomePane.FullRoundReturns | Editor/AGS.Editor/Panes/WelcomePane.cs:77-85 | count clicks bring the cursor back where it started |
| WelcomePane.WelcomePaneState.constructor | Editor/AGS.Editor/Panes/WelcomePane.cs:66-69 | the pane cycles through the fixed tip table and starts on the given tip index, with nothing shown yet |
| WelcomePane.WelcomePaneState.ShowTipOfTheDay | Editor/AGS.Editor/Panes/WelcomePane.cs:87-111 | the label shows the tip's view; a tip that makes the source throw leaves the link cleared and the old text |
| WelcomePane.WelcomePaneState.NextTip | Editor/AGS.Editor/Panes/WelcomePane.cs:77-85 | the cursor moves to the next tip, wrapping; the label then shows that tip's text, link area and target as ShowTip gives them, or, for a tip that makes the source throw, the old text with the link cleared |
| WelcomePane.WelcomePaneState.TipLinkClicked | Editor/AGS.Editor/Panes/WelcomePane.cs:113-123 | the action LinkClicked gives for the current target |
| VersionResourcePatch.FirstMatchFrom | Editor/AGS.Native/ScriptCompiler.cpp:110-117 | the first start position in [from, limit) where the pattern occurs, or none when it occurs at none of them |
| VersionResourcePatch.Overwrite | Editor/AGS.Native/ScriptCompiler.cpp:114 | the replaced range holds the new bytes and every other byte is kept |
| VersionResourcePatch.UpdateFirstMatchBelow | Editor/AGS.Native/ScriptCompiler.cpp:110-117 | the first match below the bound is overwritten with searchForLen bytes of replaceWith; without one the buffer is unchanged |
| VersionResourcePatch.FindAndUpdateMemoryAsWritten | Editor/AGS.Native/ScriptCompiler.cpp:108-120 | the loop as written: only starts below dataLen - searchForLen are tried; not found fails with the message and leaves the buffer |
| VersionResourcePatch.AsWrittenMissesOccurrenceAtEnd | Editor/AGS.Native/ScriptCompiler.cpp:110 | "AB" holds "B" at position 1, yet the bound as written finds no match |
| VersionResourcePatch.AsWrittenMissesLastStart | Editor/AGS.Native/ScriptCompiler.cpp:110 | an occurrence only at dataLen - searchForLen is missed by the bound as written and found by the corrected one |
| VersionResourcePatch.LastStartFound | Editor/AGS.Native/ScriptCompiler.cpp:110 | the same from any earlier start position |
| VersionResourcePatch.CorrectedBoundSeesEveryStart | Editor/AGS.Native/ScriptCompiler.cpp:110 | with starts up to dataLen - searchForLen, no match is found iff the pattern occurs nowhere |
| VersionResourcePatch.FindAndUpdateMemory | Editor/AGS.Native/ScriptCompiler.cpp:108-120 | the corrected search, trying every start up to and including dataLen - searchForLen: fails iff the pattern occurs nowhere, leaving the buffer; otherwise its first occurrence is overwritten and every other byte kept |
| VersionResourcePatch.Widen | Editor/AGS.Native/ScriptCompiler.cpp:125 | each ASCII character becomes its code followed by a zero byte |
| VersionResourcePatch.Narrow | Editor/AGS.Native/ScriptCompiler.cpp:125 | taking every other byte halves the length |
| VersionResourcePatch.NarrowWiden | Editor/AGS.Native/ScriptCompiler.cpp:125 | narrowing undoes the widening |
| VersionResourcePatch.ReplaceStringInMemory | Editor/AGS.Native/ScriptCompiler.cpp:122-127 | through the search as written: it succeeds iff the widened text occurs at a start below memorySize - 2*strlen, and then its first such occurrence is overwritten with 2*strlen bytes of replaceWithData; otherwise it fails with the not-found message and memory is kept |
| InteractionConversion.CharacterScriptName | Editor/AGS.Native/agsnative.cpp:2792-2805 | never empty: the character's script name when it exists and is not empty, otherwise "character[<id>]" |
| InteractionConversion.CommandText | Editor/AGS.Native/agsnative.cpp:2825-3002 | succeeds iff the command is convertible (a known type, a Run Script letter that is a valid character, a variable index that is not negative); type 0 adds nothing, every other type adds text ending in a line break |
| InteractionConversion.ConvertCommand | Editor/AGS.Native/agsnative.cpp:2807-3003 | succeeds iff the command is convertible; the counter becomes count + 1 for Run Script and 1000 otherwise; the flag stays set only for an inventory-used test; the text only grows |
| InteractionConversion.ConvertListOkIffAllConvertible | Editor/AGS.Native/agsnative.cpp:3005-3026 | converting a list succeeds iff every command of the tree, children included, is convertible |
| InteractionConversion.ConvertFromOkIff | Editor/AGS.Native/agsnative.cpp:3009-3017 | the loop from command i on succeeds iff every command from i on, with its children, is convertible |
| InteractionConversion.ConvertAtOkIff | Editor/AGS.Native/agsnative.cpp:3011-3016 | one pass of the loop succeeds iff the command and its children are convertible |
| InteractionConversion.OnlyInvFlagAfterLoop | Editor/AGS.Native/agsnative.cpp:2820-2823 | after the loop the flag is set iff it was set on entry and every command from i on was an inventory-used test |
| InteractionConversion.UnhandledEventIffAllInventoryTests | Editor/AGS.Native/agsnative.cpp:3019-3025 | the list's text ends with the unhandled-event block iff all its own commands are type 20, the target type is positive and the list is not empty |
| InteractionConversion.RunScriptCountOfList | Editor/AGS.Native/agsnative.cpp:2809-2818 | over a tree of Run Script commands the counter grows by their number; any other command leaves it at 1000 or more, where it stays |
| InteractionConversion.RunScriptCountFrom | Editor/AGS.Native/agsnative.cpp:2809-2818 | the same for the loop from command i on |
| InteractionConversion.RunScriptCountAt | Editor/AGS.Native/agsnative.cpp:2809-2818 | the same for one command and its children |
| InteractionConversion.SingleRunScriptIffOneRunScript | Editor/AGS.Native/agsnative.cpp:3052-3058 | an event gets the single-run marker iff its response is exactly one Run Script command |
| InteractionConversion.EventScript | Editor/AGS.Native/agsnative.cpp:3050-3060 | an event's script exists iff its whole response tree is convertible |
| InteractionConversion.ConversionOutput.constructor | Editor/AGS.Native/agsnative.cpp:3052-3053 | an empty text, counter 0, no GUIDs drawn |
| InteractionConversion.ConversionOutput.SetState | Editor/AGS.Native/agsnative.cpp:3011 | the output takes the given state |
| InteractionConversion.ConvertInteractionCommandList | Editor/AGS.Native/agsnative.cpp:3005-3026 | fails exactly where ConvertList fails, and on success the output is ConvertList's result |
| InteractionConversion.ConvertInteractions | Editor/AGS.Native/agsnative.cpp:3041-3062 | too many events fails before writing; otherwise it succeeds iff every response is convertible, and then each event with a response gets its EventScript and the others keep their script |
| GfxDriverBase.RectWH | Engine/gfx/gfxdriverbase.cpp:118 | a rectangle of width w and height h is empty iff w or h is not positive |
| GfxDriverBase.BeginBatch | Engine/gfx/gfxdriverbase.cpp:68-74 | a new description is pushed whose parent is the active batch, and it becomes active; the batch invariant is kept |
| GfxDriverBase.EndBatch | Engine/gfx/gfxdriverbase.cpp:76-79 | the parent of the active batch becomes active: a lower index, or 0 for the default batch; descriptions are kept |
| GfxDriverBase.ClearBatches | Engine/gfx/gfxdriverbase.cpp:81-86 | only the default batch remains, and it is active |
| GfxDriverBase.EndUndoesBegin | Engine/gfx/gfxdriverbase.cpp:68-79 | ending right after beginning makes the previous batch active again, with the earlier descriptions unchanged |
| GfxDriverBase.EndMany | Engine/gfx/gfxdriverbase.cpp:76-79 | repeated ends keep the descriptions and the invariant |
| GfxDriverBase.EndingReachesDefault | Engine/gfx/gfxdriverbase.cpp:76-79 | at most as many ends as the active index reach the default batch |
| GfxDriverBase.GraphicsDriverBase.constructor | Engine/gfx/gfxdriverbase.cpp:27-36 | only the default batch exists and is active; no mode, no frame |
| GfxDriverBase.GraphicsDriverBase.BeginSpriteBatch | Engine/gfx/gfxdriverbase.cpp:68-74 | the batches become BeginBatch of the old ones; nothing else changes |
| GfxDriverBase.GraphicsDriverBase.EndSpriteBatch | Engine/gfx/gfxdriverbase.cpp:76-79 | the batches become EndBatch of the old ones; nothing else changes |
| GfxDriverBase.GraphicsDriverBase.ClearDrawLists | Engine/gfx/gfxdriverbase.cpp:81-86 | the batches become ClearBatches of the old ones; nothing else changes |
| GfxDriverBase.GraphicsDriverBase.OnModeSet | Engine/gfx/gfxdriverbase.cpp:96-99 | the mode is recorded, and counts as set iff its size and depth are all non-zero |
| GfxDriverBase.GraphicsDriverBase.OnModeReleased | Engine/gfx/gfxdriverbase.cpp:101-105 | no mode and no render frame remain |
| GfxDriverBase.GraphicsDriverBase.OnSetNativeRes | Engine/gfx/gfxdriverbase.cpp:117-126 | the source rectangle and the default batch's viewport take the native size; the native size is valid iff it is positive |
| GfxDriverBase.GraphicsDriverBase.OnSetRenderFrame | Engine/gfx/gfxdriverbase.cpp:128-132 | the destination is recorded; the frame is valid iff source and destination are not empty |
| GfxDriverBase.Hold | Engine/gfx/gfxdriverbase.cpp:200 | one more DDB holds the texture, no other count changes |
| GfxDriverBase.GetShared | Engine/gfx/gfxdriverbase.cpp:193-214 | a live cache entry is reused at the size it was made; otherwise a new texture is made and recorded unless the id is UINT32_MAX; either way the texture gains one holder |
| GfxDriverBase.CreatePrivate | Engine/gfx/gfxdriverbase.cpp:185-191 | a texture of its own, not in the cache, held once |
| GfxDriverBase.ClearShared | Engine/gfx/gfxdriverbase.cpp:227-232 | the sprite's entry is gone and every other entry is kept |
| GfxDriverBase.Destroy | Engine/gfx/gfxdriverbase.cpp:234-242 | the texture loses one holder, and the sprite's cache entry is erased iff its texture has then expired |
| GfxDriverBase.SharedTextureToUpdate | Engine/gfx/gfxdriverbase.cpp:216-225 | a texture is updated iff the sprite has a live cache entry, and it is that entry's texture |
| GfxDriverBase.SecondRequestSharesTexture | Engine/gfx/gfxdriverbase.cpp:193-214 | two requests for one sprite while the first DDB lives share one texture |
| GfxDriverBase.GetThenDestroyRestoresCache | Engine/gfx/gfxdriverbase.cpp:193-242 | getting a DDB for an uncached sprite and destroying it leaves the cache and all holder counts as they were |
| GfxDriverBase.ReleaseAll | Engine/gfx/gfxdriverbase.cpp:277-283 | releasing slots keeps the texture counter and changes only the textures they hold |
| GfxDriverBase.ScreenDdbs | Engine/gfx/gfxdriverbase.cpp:280 | the DDBs of the stage screen slots, in order |
| GfxDriverBase.FxDdbs | Engine/gfx/gfxdriverbase.cpp:336 | the DDBs of the effect entries, in order |
| GfxDriverBase.VideoMemoryDriver.constructor | Engine/gfx/gfxdriverbase.cpp:140-150 | an empty cache, no stage screens, not dirty, an empty effect pool at index 0 |
| GfxDriverBase.VideoMemoryDriver.GetStageBackBuffer | Engine/gfx/gfxdriverbase.cpp:173-177 | the stage bitmap; the dirty flag is or-ed with the request |
| GfxDriverBase.VideoMemoryDriver.GetSharedDDB | Engine/gfx/gfxdriverbase.cpp:193-214 | the cache and the DDB are as GetShared says; nothing else changes |
| GfxDriverBase.VideoMemoryDriver.ClearSharedDDB | Engine/gfx/gfxdriverbase.cpp:227-232 | the cache is as ClearShared says |
| GfxDriverBase.VideoMemoryDriver.DestroyDDB | Engine/gfx/gfxdriverbase.cpp:234-242 | the cache is as Destroy says |
| GfxDriverBase.VideoMemoryDriver.CreateStageScreen | Engine/gfx/gfxdriverbase.cpp:244-265 | the slot list grows to hold the index; a null size empties the slot and releases its DDB; a new size replaces bitmap and DDB at the mode's depth; the same size keeps them; other slots are kept |
| GfxDriverBase.VideoMemoryDriver.DestroyAllStageScreens | Engine/gfx/gfxdriverbase.cpp:275-286 | every slot is emptied and its DDB released; the current stage screen is dropped without release |
| GfxDriverBase.VideoMemoryDriver.DestroyFxPool | Engine/gfx/gfxdriverbase.cpp:332-342 | every entry's DDB is released and the pool emptied |
| GfxDriverBase.VideoMemoryDriver.GetStageScreen | Engine/gfx/gfxdriverbase.cpp:267-273 | the slot, or an empty one past the end |
| GfxDriverBase.VideoMemoryDriver.MakeFx | Engine/gfx/gfxdriverbase.cpp:306-325 | the entry at the index (new at the end) gets a 16x16 bitmap and a private DDB on first use, records the colour, and the index moves on; other entries are kept |
| GfxDriverBase.VideoMemoryDriver.ResetFxPool | Engine/gfx/gfxdriverbase.cpp:327-330 | the pool is reused from its first entry |
| GfxDriverBase.VideoMemoryDriver.DoNullSpriteCallback | Engine/gfx/gfxdriverbase.cpp:288-304 | no callback is an error; otherwise the result and the dirty flag are whether the callback returned non-zero |
| VideoMemTexels.Pack | Engine/gfx/gfxdriverbase.cpp:393-394 | a texel packs the low 8 bits of alpha, red, green and blue into 32 bits |
| VideoMemTexels.PackRoundTrip | Engine/gfx/gfxdriverbase.cpp:393-394 | the four components of a packed texel read back unchanged |
| VideoMemTexels.ClearAlpha | Engine/gfx/gfxdriverbase.cpp:446 | masking with 0x00FFFFFF keeps the colour and clears alpha |
| VideoMemTexels.OpaqueTexelChannels | Engine/gfx/gfxdriverbase.cpp:439-442 | a visible pixel's texel has its colour and full alpha, or its own alpha in a 32-bit bitmap with alpha |
| VideoMemTexels.Neighbours | Engine/gfx/gfxdriverbase.cpp:423-431 | at most four neighbours: left, right, above, below, those inside the tile |
| VideoMemTexels.VisibleColours | Engine/gfx/gfxdriverbase.cpp:359-390 | at most one colour per neighbour, for those not transparent |
| VideoMemTexels.ChannelSumBounds | Engine/gfx/gfxdriverbase.cpp:359-368 | a channel sum lies between n times the smallest and n times the largest value |
| VideoMemTexels.AverageWithinNeighbours | Engine/gfx/gfxdriverbase.cpp:432-433 | the filtering colour lies between the darkest and brightest visible neighbour in each channel, with alpha 0 |
| VideoMemTexels.DivBounds | Engine/gfx/gfxdriverbase.cpp:433 | dividing the sum by the count stays between the bounds |
| VideoMemTexels.AverageTexelAsWritten | Engine/gfx/gfxdriverbase.cpp:423-435 | the accumulation as written: the 8-bit sums are kept in an unsigned char, and only that path departs from the true mean |
| VideoMemTexels.AsWrittenAverageWraps | Engine/gfx/gfxdriverbase.cpp:423-433 | two visible neighbours of red 200 give red 72 as written and 200 when corrected |
| VideoMemTexels.WrappedAverageIsTransparent | Engine/gfx/gfxdriverbase.cpp:423-433 | even with the wrapping 8-bit sums, the averaged mask texel keeps alpha 0 |
| VideoMemTexels.MaskTexelIsTransparent | Engine/gfx/gfxdriverbase.cpp:412-438 | transparent pixels always get alpha 0 |
| VideoMemTexels.UnfilteredMaskTexel | Engine/gfx/gfxdriverbase.cpp:415-418 | without filtering a transparent pixel is 0 unless the pixel to its right is visible, whose colour it then carries |
| VideoMemTexels.VisibleTexelKeepsColour | Engine/gfx/gfxdriverbase.cpp:439-531 | a visible pixel keeps its colour, with full alpha or its own |
| VideoMemTexels.BitmapToVideoMem | Engine/gfx/gfxdriverbase.cpp:397-537 | for 8, 16 and 32-bit bitmaps every tile texel is TexelAt, whose filtered mask colour uses the wrapping 8-bit sums as written; the rest of the buffer is kept |
| VideoMemTexels.ConvertRow | Engine/gfx/gfxdriverbase.cpp:410-533 | one row of the tile becomes TexelAt (with the wrapping 8-bit average as written); nothing else changes |
| VideoMemTexels.BitmapToVideoMemOpaque | Engine/gfx/gfxdriverbase.cpp:539-572 | every tile pixel becomes its colour with full alpha (or its own alpha in 32-bit with alpha); no pixel is transparent |
| Direct3D.ColorDepthToD3DFormat | Engine/platform/windows/gfx/ali3dd3d.cpp:379-412 | a colour depth gets a Direct3D format iff it is one of 8, 15, 16, 24, 32; asking for alpha only ever yields a format with alpha (or the palette format) |
| Direct3D.D3DFormatToColorDepth | Engine/platform/windows/gfx/ali3dd3d.cpp:420-439 | a format maps to depth 0 iff it is unknown, and every known format maps to a known depth |
| Direct3D.FormatRoundTrip | Engine/platform/windows/gfx/ali3dd3d.cpp:379-439 | each of the depths 8, 15, 16, 24, 32 survives the trip to a format without alpha and back; any other depth comes back as 0 |
| Direct3D.GetCompatibleBitmapFormat | Engine/platform/windows/gfx/ali3dd3d.cpp:1539-1546 | 8 stays 8, 9..16 become 16, everything else becomes 32 |
| Direct3D.CompatibleFormatIsFixedPoint | Engine/platform/windows/gfx/ali3dd3d.cpp:1539-1546 | the compatible format is its own compatible format, and a depth is its own exactly when it is 8, 16 or 32 |
| Direct3D.NextPow2From | Engine/platform/windows/gfx/ali3dd3d.cpp:1555-1571 | the first of p, 2p, 4p, ... that reaches v: at least v, and its half is below v unless it is p itself |
| Direct3D.NextPow2IsPow2 | Engine/platform/windows/gfx/ali3dd3d.cpp:1555-1571 | doubling from a power of two stays a power of two |
| Direct3D.AdjustedSizeProperties | Engine/platform/windows/gfx/ali3dd3d.cpp:1548-1588 | with the power-of-two cap each side becomes the smallest power of two (at least 2) that holds it; with the square-only cap both sides become the larger one; with neither cap the size is unchanged |
| Direct3D.AdjustSizeToNearestSupportedByCard | Engine/platform/windows/gfx/ali3dd3d.cpp:1548-1588 | the doubling loop and the squaring step leave exactly the adjusted size |
| Direct3D.TilesAlong | Engine/platform/windows/gfx/ali3dd3d.cpp:1637-1642 | a side needs ceil(allocated size / maximum texture size) tiles, and at least one |
| Direct3D.TilesCoverSide | Engine/platform/windows/gfx/ali3dd3d.cpp:1643-1708 | the tiles along a side start at 0, follow each other without gap or overlap, have non-negative lengths and end exactly at the side's size, the last one absorbing the remainder |
| Direct3D.CreateTextureTiles | Engine/platform/windows/gfx/ali3dd3d.cpp:1628-1708 | the tile array holds tilesAcross * tilesDown tiles, their counts computed from the adjusted size, and tile (x, y) stored at y * tilesAcross + x with its start and size |
| Direct3D.FillColumn | Engine/platform/windows/gfx/ali3dd3d.cpp:1688-1708 | after the inner loop every tile of column x is in place as well as those of the earlier columns |
| Direct3D.IndexOfTile | Engine/platform/windows/gfx/ali3dd3d.cpp:1690 | y * tilesAcross + x lies inside the array and names column x of row y |
| Direct3D.GammaEntry | Engine/platform/windows/gfx/ali3dd3d.cpp:492-497 | every ramp entry is a 16-bit value |
| Direct3D.GammaEntryProperties | Engine/platform/windows/gfx/ali3dd3d.cpp:488-501 | gamma 100 leaves an entry as it was; a non-negative gamma gives min(default * gamma / 100, 65535) |
| Direct3D.IsModeSupported | Engine/platform/windows/gfx/ali3dd3d.cpp:441-475 | a mode is supported iff its size and depth are positive and it is windowed, or the adapter lists its size for the depth's format before any entry it fails to enumerate |
| Direct3D.D3DGfxModeList.constructor | Engine/platform/windows/gfx/ali3dd3d.h:126-131 | without a Direct3D object the list reports 0 modes |
| Direct3D.D3DGfxModeList.GetMode | Engine/platform/windows/gfx/ali3dd3d.cpp:142-157 | a mode is returned iff Direct3D is present, the index is in range and the adapter enumerates it; its depth is read back from its format |
| Direct3D.D3DBitmap.constructor | Engine/platform/windows/gfx/ali3dd3d.h:100-115 | a new bitmap has its own size and depth, renders at its own size, is fully opaque in alpha, untinted, unlit, not flipped and not resampled |
| Direct3D.D3DBitmap.GetRefID | Engine/platform/windows/gfx/ali3dd3d.h:68 | the ID of the shared texture data |
| Direct3D.D3DBitmap.SetAlpha | Engine/platform/windows/gfx/ali3dd3d.h:70-71 | GetAlpha then returns the value set, and nothing else changes |
| Direct3D.D3DBitmap.SetFlippedLeftRight | Engine/platform/windows/gfx/ali3dd3d.h:72 | only the flip flag changes |
| Direct3D.D3DBitmap.SetStretch | Engine/platform/windows/gfx/ali3dd3d.h:73-78 | GetWidthToRender and GetHeightToRender return the new size, the resampler flag is set, and nothing else changes |
| Direct3D.D3DBitmap.SetLightLevel | Engine/platform/windows/gfx/ali3dd3d.h:79 | only the light level changes |
| Direct3D.D3DBitmap.SetTint | Engine/platform/windows/gfx/ali3dd3d.h:80-86 | only red, green, blue and the saturation change |
| Direct3D.CreateDDB | Engine/platform/windows/gfx/ali3dd3d.cpp:1602-1609 | a bitmap is created iff the depth is its own compatible format (8, 16 or 32), with the requested size, depth and opacity; any other depth is an error |
| Direct3D.MoveToX | Engine/platform/windows/gfx/ali3dd3d.cpp:1408-1409 | the rectangle starts at the new left edge and keeps its width and rows |
| Direct3D.MoveToY | Engine/platform/windows/gfx/ali3dd3d.cpp:1414-1415 | the rectangle starts at the new top edge and keeps its height and columns |
| Direct3D.ClampToRect | Engine/platform/windows/gfx/ali3dd3d.cpp:1430 | every edge of the result lies inside a non-empty place |
| Direct3D.MirrorTwice | Engine/platform/windows/gfx/ali3dd3d.cpp:1406-1417 | mirroring a viewport twice in the same frame gives it back, and mirroring keeps its size |
| Direct3D.NestedBatchInsideParent | Engine/platform/windows/gfx/ali3dd3d.cpp:1404-1431 | a batch with a parent never gets a viewport outside the parent's non-empty viewport |
| Direct3D.Drawn | Engine/platform/windows/gfx/ali3dd3d.cpp:1358-1382 | only indices of the range whose entry is not skipped are drawn |
| Direct3D.DrawnComplete | Engine/platform/windows/gfx/ali3dd3d.cpp:1358-1382 | every entry of the range that is not skipped is drawn, and in list order |
| Direct3D.D3DGraphicsDriver.constructor | Engine/platform/windows/gfx/ali3dd3d.cpp:168-192 | a new driver has no mode, the initial batch descriptions, batch 0 already built from the default description, and empty draw lists and backups |
| Direct3D.D3DGraphicsDriver.InitBatchAt | Engine/platform/windows/gfx/ali3dd3d.cpp:1384-1442 | the batch list grows to hold the index, new slots being default batches; the index gets its own batch and no other batch changes |
| Direct3D.D3DGraphicsDriver.BeginSpriteBatch | Engine/platform/windows/gfx/ali3dd3d.cpp:1384-1442 | the base driver begins the batch and the new active batch is built with its own ID; the draw lists stay as they were |
| Direct3D.D3DGraphicsDriver.EndSpriteBatch | Engine/gfx/gfxdriverbase.cpp:76-79 | the base driver ends the batch; the driver's lists stay valid |
| Direct3D.D3DGraphicsDriver.ClearDrawLists | Engine/platform/windows/gfx/ali3dd3d.cpp:1444-1448 | no batch and no draw entry remain; the backups stay |
| Direct3D.D3DGraphicsDriver.DrawSprite | Engine/platform/windows/gfx/ali3dd3d.cpp:1472-1475 | one entry tagged with the active batch is appended and nothing else changes |
| Direct3D.D3DGraphicsDriver.BackupDrawLists | Engine/platform/windows/gfx/ali3dd3d.cpp:1457-1462 | the backups become copies of the batch descriptions, batches and draw list |
| Direct3D.D3DGraphicsDriver.ClearDrawBackups | Engine/platform/windows/gfx/ali3dd3d.cpp:1450-1455 | the backups are emptied and the live lists stay |
| Direct3D.D3DGraphicsDriver.RestoreDrawLists | Engine/platform/windows/gfx/ali3dd3d.cpp:1464-1470 | the backed-up descriptions, batches and entries come back, with batch 0 active |
| Direct3D.D3DGraphicsDriver.DestroyDDBImpl | Engine/platform/windows/gfx/ali3dd3d.cpp:1477-1486 | every backed-up entry that draws the destroyed bitmap is marked skipped, and every other entry is unchanged |
| Direct3D.D3DGraphicsDriver.RenderSpriteBatch | Engine/platform/windows/gfx/ali3dd3d.cpp:1358-1382 | the maximal run of entries from `from` that belong to the batch is consumed, the index past it returned, and exactly its entries not skipped drawn |
| Direct3D.D3DGraphicsDriver.RenderSpriteBatches | Engine/platform/windows/gfx/ali3dd3d.cpp:1336-1356 | all open batches are ended, and every entry that is not skipped is drawn exactly once, in list order |
| Direct3D.D3DGraphicsDriver.SetNativeResolution | Engine/platform/windows/gfx/ali3dd3d.cpp:858-865 | the native frame and depth are recorded, the default batch's viewport takes the native size, the active batch is rebuilt while every other built batch, the draw list and the backups are kept, and the call succeeds iff the native size is not empty |
| Direct3D.D3DGraphicsDriver.SetRenderFrame | Engine/platform/windows/gfx/ali3dd3d.cpp:867-873 | the destination frame is recorded, and the call succeeds iff it is not empty |
| Direct3D.D3DGraphicsDriver.ReleaseDisplayMode | Engine/platform/windows/gfx/ali3dd3d.cpp:249-261 | with no mode set nothing at all changes; otherwise the mode and render frame are forgotten, the draw lists and backups are emptied, the batches cleared, the effect pool and every stage screen freed with their textures released, and the native frame kept |
| Direct3D.D3DGraphicsDriver.SetDisplayMode | Engine/platform/windows/gfx/ali3dd3d.cpp:749-774 | the current mode is always released first (as ReleaseDisplayMode); the call then succeeds iff the depth is at least 15 and the device initialises; a palette depth gives the 256-colour error; on failure no mode is set, on success the mode is the requested one |
| Direct3D.D3DGraphicsDriver.SetGamma | Engine/platform/windows/gfx/ali3dd3d.cpp:488-501 | every red, green and blue ramp entry becomes the default red entry scaled by gamma / 100, capped at 65535 |
| SoftwareRenderer.ALSoftwareBitmap.constructor | Engine/gfx/ali3dsw.h:65-73 | a bitmap without pixels has the requested size, depth and opacity, renders at its own size, is fully opaque in alpha and not flipped |
| SoftwareRenderer.ALSoftwareBitmap.Wrap | Engine/gfx/ali3dsw.h:75-85 | a bitmap wrapping pixels takes their size and depth, renders at that size, and records the opacity and alpha flags given |
| SoftwareRenderer.ALSoftwareBitmap.GetRefID | Engine/gfx/ali3dsw.h:47 | the software renderer never shares texture data, so the ID is always the "none" value UINT32_MAX |
| SoftwareRenderer.ALSoftwareBitmap.SetAlpha | Engine/gfx/ali3dsw.h:49-50 | GetAlpha then returns the value set, and nothing else changes |
| SoftwareRenderer.ALSoftwareBitmap.SetFlippedLeftRight | Engine/gfx/ali3dsw.h:51 | only the flip flag changes |
| SoftwareRenderer.ALSoftwareBitmap.SetStretch | Engine/gfx/ali3dsw.h:52-56 | GetWidthToRender and GetHeightToRender return the new size; the resampler flag is ignored and nothing else changes |
| SoftwareRenderer.ALSoftwareBitmap.SetLightLevel | Engine/gfx/ali3dsw.h:57 | the bitmap does not change |
| SoftwareRenderer.ALSoftwareBitmap.SetTint | Engine/gfx/ali3dsw.h:58 | the bitmap does not change |
| SoftwareRenderer.SDLRendererGfxModeList.constructor | Engine/gfx/ali3dsw.h:97-105 | the list holds the given modes and reports their number |
| SoftwareRenderer.SDLRendererGfxModeList.GetMode | Engine/gfx/ali3dsw.h:107-115 | a mode is returned iff the index is in range, and it is the mode at that index |
| SoftwareRenderer.EveryModeListed | Engine/gfx/ali3dsw.h:102-115 | a mode is in the list iff some index below the mode count returns it |
| SoftwareRenderer.SDLRendererGraphicsDriver.GetSharedDDB | Engine/gfx/ali3dsw.h:162-166 | there is no texture cache: each call wraps the bitmap in a new DDB with the given flags and no shared ID |
| SoftwareRenderer.SDLRendererGraphicsDriver.UpdateSharedDDB | Engine/gfx/ali3dsw.h:167-168 | the driver does not change |
| SoftwareRenderer.SDLRendererGraphicsDriver.ClearSharedDDB | Engine/gfx/ali3dsw.h:169 | the driver does not change |
| CsciDialog.ScalingBounds | Engine/gui/cscidialog.cpp:251-277 | multiply_up never shrinks a non-negative coordinate below its fixed pixel size and at most doubles it; base widths other than 400, 800 and 1024 keep the fixed pixel size |
| CsciDialog.FirstFreeWindowFrom | Engine/gui/cscidialog.cpp:93-98 | the lowest slot from i on without a handle, or -1 exactly when every such slot is in use |
| CsciDialog.DrawWindowTakesLowestFree | Engine/gui/cscidialog.cpp:88-122 | drawing fails iff every window slot is in use; otherwise the lowest free slot takes the window, remembers the old top window and becomes the top, the count grows by one and no other slot changes |
| CsciDialog.EraseUndoesDraw | Engine/gui/cscidialog.cpp:88-133 | erasing the window just drawn brings back the previous top window, the window count, the bounds counter and the set of free slots |
| CsciDialog.FirstFreeControlFrom | Engine/gui/cscidialog.cpp:204-209 | the lowest empty control slot from i on, or -1 exactly when every such slot is taken |
| CsciDialog.DefaultControlFrom | Engine/gui/cscidialog.cpp:297-311 | the lowest slot from i on whose control sits on the top window's level and whose flags meet the mask, or -1 exactly when there is none |
| CsciDialog.ControlType | Engine/gui/cscidialog.cpp:214 | the control type is a byte |
| CsciDialog.CreateTakesLowestFreeAboveZero | Engine/gui/cscidialog.cpp:200-236 | with every slot above 0 taken creation fails with 'Too many controls'; with a free slot it fails with 'Unknown control type' iff the type byte is not CNT_PUSHBUTTON..CNT_TEXTBOX; otherwise the new control goes in the lowest empty slot above 0, with the kind KindOf gives its type byte, the full typeandflags and the top window's level, and every other slot is kept |
| CsciDialog.DeleteUndoesCreate | Engine/gui/cscidialog.cpp:200-242 | deleting the control just created gives the slot table back as it was |
| CsciDialog.CsciDialogs.constructor | Engine/gui/cscidialog.cpp:47-79 | every window and control slot starts free and there is no top window |
| CsciDialog.CsciDialogs.CSCIDrawWindow | Engine/gui/cscidialog.cpp:88-122 | the search loop finds the slot DrawWindow names, and the window table, top window, counters and window rectangle become DrawWindow's desk |
| CsciDialog.CsciDialogs.CSCIEraseWindow | Engine/gui/cscidialog.cpp:124-133 | the desk becomes EraseWindow's: the slot is freed and its previous top window is the top again |
| CsciDialog.CsciDialogs.CSCICreateControl | Engine/gui/cscidialog.cpp:200-236 | the search loop and the type dispatch leave the slot table and result CreateControl names, with the kind taken from the CNT_* codes |
| CsciDialog.KindOf | Engine/gui/cscidialog.cpp:215-228 | a type byte names a control kind iff it is one of CNT_PUSHBUTTON, CNT_LISTBOX, CNT_LABEL, CNT_TEXTBOX, each naming its own kind |
| CsciDialog.CsciDialogs.CSCIDeleteControl | Engine/gui/cscidialog.cpp:238-242 | only the given slot is emptied |
| CsciDialog.CsciDialogs.CSCISendControlMessage | Engine/gui/cscidialog.cpp:244-249 | -1 for an empty slot, otherwise the control's own reply |
| CsciDialog.CsciDialogs.FindDefaultControl | Engine/gui/cscidialog.cpp:297-311 | the scan returns the lowest slot with a control on the top window's level whose flags meet the mask, and -1 exactly when no slot qualifies |

## Left out

- GuiSliderModel.GUISlider.OnMouseMove: the floating-point mapping from the mouse position to a value is not modelled. That value is a parameter. The method requires MinValue <= MaxValue, which UpdateMetrics establishes before any input arrives.
- ScriptString.Replace: requires a non-empty search string, because with an empty one the source's scan never moves forward. It also requires the result to fit the 3000-byte result buffer, because the source would write past the buffer.
- FrameTimer.TimerState.SetTimerFps: requires a non-zero rate, because the source divides one second by it.
- Sprite file I/O: the sprite file loader is a parameter that returns an image and its size. Reading and writing sprite files is not modelled.
- `SpriteCache::RemoveSprite` is not part of this model; it depends on `InitNullSpriteParams`, which is not part of this model either.
- Text encodings: Allegro's UTF-8 text routines are not modelled. Characters are single units, and the case-insensitive paths fold ASCII letters only.
- Script-managed object creation (`CreateNewScriptString`) is not modelled; the string functions return their result text.
- Screen output: drawing of any kind is not modelled. This covers GUI and CSCI windows, button bevels, glyph blitting to a bitmap, and the welcome pane's label layout.
- CSCI input: `CSCIWaitMessage` and `checkcontrols` poll the mouse and keyboard and are not modelled. Neither are the controls' own message handling and redrawing; a control's reply is a parameter.
- Timing: the clock, sleeping and the suspend loop are not modelled. Time is an input, and the pacing functions return how long they would sleep.
- The welcome pane's random choice of the first tip is not modelled; the start index is an input. The tips themselves are the table `TIPS_OF_THE_DAY`, and the link-parsing lemma covers any well-formed tip.
- Direct3D device work is not modelled:
  - device creation and reset (the initialisation outcome is a parameter of SetDisplayMode);
  - adapter enumeration (a parameter);
  - texture upload (`UpdateDDBFromBitmap`) and vertex buffers;
  - the transformation matrices and stage-screen sizes of `InitSpriteBatch`;
  - `SetupViewport`, `CreateVirtualScreen` and `OnScalingChanged`;
  - the `SetGammaRamp` call.
- Direct3D.CreateDDB: only the bitmap record is modelled. The texture data it allocates is not, beyond its default ID.
- Direct3D.AdjustSizeToNearestSupportedByCard: the model's doubling does not overflow. In the source `tryThis << 1` overflows for a side above 2^30.
- Direct3D.GammaEntry: the product default * gamma is not reduced to 32 bits, so a gamma large enough to overflow `int` is not modelled.
- The callback that draws a plugin's raw stage screen (`DoNullSpriteCallback`) is not modelled; its result is a parameter.
- `std::sort` in the GUI draw-order update is not stable, but the model's sort keeps equal elements in their original order. The proved properties (sorted, and a permutation) hold for either.
- Interaction conversion: the script templates for each action, the game's names and the GUID generator are parameters. `CopyInteractions` is not modelled.
- InteractionConversion.CommandText: a Dafny `char` cannot hold a lone UTF-16 surrogate, so a Run Script letter whose code falls in 0xD800..0xDFFF gives `Err`, where `Convert::ToChar` in the source accepts it.
- InteractionConversion.ConvertCommand: inherits the surrogate gap of CommandText.
- SpriteCacheModel.SpriteCache.LoadSprite: `initialize_sprite` is a parameter that returns the converted bitmap; its changes to the sprite-info flags and any resizing it does are not modelled.
- GuiEngine.GuiSystem.RemovePopupInterface: unpausing the game and restoring the cursor are not modelled; `SetConceal` is reduced to setting the concealed flag.
- GuiSliderModel.GUISlider.ReadFromFile: the `GUIObject` base record read before the slider's own words is not modelled; the same holds for WriteToFile, ReadFromSavegame and WriteToSavegame.
- AgsNative.CropSpriteEdges: the crops are returned; replacing each sprite with `SetSprite`, its flags and the `spritesModified` mark are not modelled.
- Direct3D.D3DGraphicsDriver.RenderSpriteBatches: the `_stageScreen` updates are not modelled, and a stage-callback entry counts as drawn whatever the callback returns.
- Threads, exceptions escaping to the host, and C++/CLI marshalling of managed strings are not modelled. A thrown exception or a `quit()` is an `Err` result.

## Findings

| source | as written | input that shows it | evidently intended | confidence | as-written member | corrected member |
|---|---|---|---|---|---|---|
| Editor/AGS.Native/ScriptCompiler.cpp:110 | the search loop runs while `i < dataLen - searchForLen`, so the last possible start, `dataLen - searchForLen`, is never tried | data "AB", search "B": the only occurrence starts at 1 = 2 - 1, and the patch reports it missing | try every start up to and including `dataLen - searchForLen` | high, not executed | VersionResourcePatch.AsWrittenMissesOccurrenceAtEnd | VersionResourcePatch.CorrectedBoundSeesEveryStart |
| Engine/gfx/gfxdriverbase.cpp:423-433 | for 8-bit bitmaps the neighbour colour sums are accumulated in `unsigned char` variables, which wrap at 256 | two visible neighbours with red 200: the sum 400 wraps to 144, so the mask texel gets red 72 instead of 200 | accumulate in an `int`, as the 16-bit path in effect does, so the mask texel takes the mean of its visible neighbours | high, not executed | VideoMemTexels.AsWrittenAverageWraps | VideoMemTexels.AverageWithinNeighbours |

The texel conversion (`TexelAt`, `BitmapToVideoMem`) and the resource patch (`ReplaceStringInMemory`) follow the code as written; the corrected definitions stand beside them with the intended properties proved.
