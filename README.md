# spoppy in Dafny

A model of the core of spoppy, a terminal Spotify client. Three parts of it are modelled:

- **The menu layer** (`spoppy/menus.py`, module `Menus`). An `Options` dictionary maps a key to a name and a destination. `match_best_or_none` turns a typed response into a destination. `Menu` adds the global options "u" (up) and "q" (quit), answers a response, and renders itself as text. The two playlist menus build their options: a numbered list of playlists, and "sp" (shuffle play) followed by the numbered tracks of one playlist.
- **The helpers in `spoppy/util.py`** (module `Util`). These are `format_track`, `format_album` and `sorted_menu_items`.
- **The audio path in `spoppy/sink.py`** (module `AudioSink`).
  - `SpoppyAlsaSink` queues the decoder's batches of frames. Its run thread takes them off the queue one at a time, tells the player, and writes them to `Sink`.
  - `Sink` opens and configures the ALSA device from the first batch it sees.
  - The thread, the queue and the device are modelled as class state. One pass of the run loop is the method `SpoppyAlsaSink.RunStep`. Scenario methods drive the decoder and the run thread and state what the outside world observes.

Supporting modules:

- `Wrappers` has `Option` and `Result`.
- `Strings` covers the Python string operations the core relies on: `lower`, `lstrip(' ')`, `startswith`, `in`, `str(int)`, `rjust`, `join` and code-point comparison. `Strings.Split` is not used by the core; it exists only to state how the rendered menu reads back line by line (`Menus.GetUiLines`).
- `Sorting` is a stable sort by key, standing for `sorted(..., key=...)`.

The model is organised as follows:

- A Python dictionary is a sequence of entries in insertion order. Assigning into it is `Menus.Put`, which replaces an existing key in place and otherwise appends.
- The menus' destinations are callables or menu objects in Python. Here they are the tags `Menus.Dest`: `Up`, `Quit`, `OpenPlaylist`, `ShufflePlay` and `PlayTrack(i)`.
- `match_best_or_none` has two forms:
  - `Menus.MatchSpec` is a rule-by-rule specification.
  - `Menus.MatchBestOrNone` is the single loop of the source, proved equal to it.
- The rules are then proved one lemma each.

Two behaviours of the run loop are easy to miss:

- The stop event is checked only at the top of the run loop. Once the thread is in the `while not self.playing` poll (`spoppy/sink.py:93-94`), setting the stop event does nothing until `play()` is called. After that, the loop writes at most one more batch, if one is queued, before it sees the event; with an empty queue the `get` times out (`spoppy/sink.py:96-98`) and the next pass exits. So the queue is not dropped at once while paused. `AudioSink.StopWhilePaused` states this behaviour.
- The run loop does not record the settings itself. Only `on_music_delivery` does (`spoppy/sink.py:114-115`). The loop reads them (`spoppy/sink.py:101-104`), and they are always present when a batch is queued (`AudioSink.SpoppyAlsaSink.Valid`).

## Model

| member | source | states |
|---|---|---|
| Strings.Lower | spoppy/menus.py:12 | lower-casing keeps the length and maps every character through the ASCII lower-case map |
| Strings.LowerIdempotent | spoppy/menus.py:12 | lower-casing twice is lower-casing once |
| Strings.LowerDigits | spoppy/menus.py:12 | a string of digits is unchanged by lower-casing |
| Strings.LStrip | spoppy/menus.py:18 | `lstrip(' ')` returns a suffix that does not start with a space, and everything it removed was spaces |
| Strings.ContainsAt | spoppy/menus.py:22 | an occurrence at some offset makes `p in s` true |
| Strings.NatToString | spoppy/menus.py:108 | `str(n)` for n >= 0 is a non-empty string of digits with no leading zero except for 0 itself |
| Strings.ParseNatToString | spoppy/menus.py:108 | reading the decimal digits of `str(n)` gives back n |
| Strings.NatToStringInjective | spoppy/menus.py:138 | different numbers have different decimal renderings |
| Strings.IntToString | spoppy/util.py:60 | `str(year)` is never empty, and for a non-negative year it is the natural-number rendering |
| Strings.RJust | spoppy/menus.py:108 | `rjust(w)` keeps the string as its suffix, reaches length w when shorter, and pads only with spaces |
| Strings.LStripRJust | spoppy/menus.py:138 | stripping the leading spaces of a right-justified string that does not start with a space gives it back |
| Strings.SplitJoin | spoppy/menus.py:69 | joining at least one part, none of which holds the separator, and splitting at the separator again gives back the parts |
| Strings.LessEqTotal | spoppy/menus.py:65 | string order is total: of two strings one is at most the other |
| Strings.LessEqTrans | spoppy/menus.py:65 | string order is transitive |
| Sorting.SortByPermutation | spoppy/menus.py:96-104 | `sorted(..., key=...)` returns the same elements, each exactly as often |
| Sorting.SortBySorted | spoppy/menus.py:96-104 | `sorted(..., key=...)` returns the elements in ascending key order |
| Sorting.SortBy | spoppy/menus.py:96-104 | `sorted(..., key=...)` returns as many elements as it is given |
| Sorting.SortByStable | spoppy/menus.py:96-104 | the sort is stable: for every key, the elements with that key come out in their input order, as Python's `sorted` promises |
| Util.FormatTrack | spoppy/util.py:46-53 | the track line starts with "<track name> by ", and it is exactly that prefix when no artist has a name |
| Util.FormatAlbum | spoppy/util.py:56-61 | the album line starts with "<album> by <artist> [", has a year between the brackets, and ends with "]" |
| Util.NamedArtists | spoppy/util.py:50-51 | only artists with a non-empty name take part in the join |
| Util.FormatTrackListsArtists | spoppy/util.py:46-53 | the track line starts with "<track name> by ", and every named artist occurs after that prefix |
| Util.FormatTrackUnnamedArtists | spoppy/util.py:46-53 | with no named artist the line is "<track name> by " |
| Util.FormatTrackNamedHead | spoppy/util.py:49-52 | a named first artist followed by more named artists gives "<track name> by <first> & " and then the join of the others, so names are separated by " & " in artist order |
| Util.FormatTrackTwoArtists | spoppy/util.py:46-53 | with exactly two named artists the line is "<track name> by <first> & <second>", in the order they are listed |
| Util.FormatTrackSoleArtist | spoppy/util.py:46-53 | with one named artist the line is "<track name> by <artist>", however many unnamed artists surround it |
| Util.NamedArtistsAppend | spoppy/util.py:49-52 | the named artists of two lists are those of the first followed by those of the second |
| Util.FormatAlbumYear | spoppy/util.py:56-61 | the album line is "<album> by <artist> [" then the year then "]"; a non-negative year's digits read back as the year |
| Util.PartsPermutation | spoppy/util.py:64-72 | the global and the other items together are all the items, each as often as given |
| Util.PartsKinds | spoppy/util.py:67-70 | held-back items have a global destination and yielded ones do not |
| Util.GlobalPartSorted | spoppy/util.py:66-68 | held-back global items stay in ascending key order |
| Util.LocalPartSorted | spoppy/util.py:66-70 | yielded items stay in ascending key order |
| Util.SortedMenuItems | spoppy/util.py:64-72 | the output is the non-global items of the key-sorted input, then its global items. It holds every item as often as given. No global item comes before a non-global one, and within each group the keys ascend |
| Menus.Put | spoppy/menus.py:108 | `d[key] = value` stores the new entry, keeps every entry under another key, adds nothing else, and grows the dictionary by at most one |
| Menus.PutNewKey | spoppy/menus.py:108 | assigning a key not yet present appends the entry at the end, after every existing entry |
| Menus.PutKeepsOthers | spoppy/menus.py:108 | `d[key] = value` leaves every entry under another key at the position it had |
| Menus.PutReplaces | spoppy/menus.py:108 | assigning to a key already present keeps the dictionary's size and puts the new entry at that key's old position |
| Menus.PutDistinct | spoppy/menus.py:108 | in a dictionary with distinct keys, assignment keeps the keys distinct, so no stale entry for the key survives |
| Menus.PutLookup | spoppy/menus.py:108 | after `d[key] = value`, looking the key up gives the new value, whether the key was new or already present |
| Menus.Lookup | spoppy/menus.py:14 | `self[key][1]` finds a destination exactly when some entry has that key, and the destination found is that entry's |
| Menus.MatchBestOrNone | spoppy/menus.py:10-31 | the single pass with its early return answers exactly what the rule-by-rule specification answers |
| Menus.MatchIgnoresCase | spoppy/menus.py:12 | a response and its lower-cased form get the same answer |
| Menus.MatchExactKey | spoppy/menus.py:13-14 | a key equal to the lower-cased response selects that option's destination |
| Menus.MatchStrippedKey | spoppy/menus.py:17-19 | with no exact key, the first key, in dictionary order, equal to the response once its leading spaces are stripped selects its option |
| Menus.MatchUniquePrefix | spoppy/menus.py:20-28 | otherwise, the only key starting with the response selects its option |
| Menus.MatchAmbiguousPrefix | spoppy/menus.py:26-28 | two keys starting with the response give no answer, whatever the names say |
| Menus.MatchUniqueName | spoppy/menus.py:22-31 | with no key starting with the response, the only option whose lower-cased name contains it is chosen |
| Menus.MatchAmbiguousName | spoppy/menus.py:29-31 | with no key starting with the response, two names containing it give no answer |
| Menus.MatchNothing | spoppy/menus.py:26-31 | when no key and no name relates to the response, there is no answer |
| Menus.MatchSpec | spoppy/menus.py:10-31 | any answer `match_best_or_none` gives is the destination of one of the options |
| Menus.GlobalKeysWin | spoppy/menus.py:56-60 | "q" or "Q" quits and "u" or "U" goes up in every menu, whatever its own options |
| Menus.IsValidResponse | spoppy/menus.py:56-60 | any answer is the destination of a global option or of one of the menu's own options |
| Menus.LocalOptionsDecide | spoppy/menus.py:56-60 | a response that is part of neither ".." nor "quit" is answered by the menu's own options alone. So is the empty response, which both global keys start with |
| Menus.UpByName | spoppy/menus.py:22-31 | "." and ".." match the name of the global up option and go up from every menu, whatever the menu's own options are |
| Menus.QuitByName | spoppy/menus.py:22-31 | a response other than "q" and "u" that is part of "quit", such as "t" or "qui", matches the global quit option by name and quits from every menu, whatever the menu's own options are |
| Menus.GetMenuItem | spoppy/menus.py:71-72 | a menu line "[key]: name" can be read back into its key and name when the key has no ']' |
| Menus.GetUi | spoppy/menus.py:62-69 | the rendered menu starts with the header and a blank line and ends with the line "[q]: quit" |
| Menus.GetUiLines | spoppy/menus.py:62-69 | when there are no newlines in the header, keys or names, the rendered menu splits into the header, an empty line, then one "[key]: name" line per displayed option in order |
| Menus.DisplayedWithUp | spoppy/menus.py:62-67 | with the up item, every own option is displayed exactly once, in ascending key order, followed by "u" and then "q" |
| Menus.DisplayedWithoutUp | spoppy/menus.py:62-67 | without the up item, no key "u" is displayed and "q" is last. The lines before it are exactly the own options whose key is not "u", each as often as given, in ascending key order |
| Menus.IndexKey | spoppy/menus.py:108 | `str(i+1).rjust(4)` is at least four characters long, and with its padding stripped it is the number i+1 |
| Menus.IndexKeysDistinct | spoppy/menus.py:138 | different positions get different keys, and no position gets "sp" |
| Menus.PlayListSelectedOptions | spoppy/menus.py:134-142 | the playlist menu is "sp" to shuffle play, then for each track in order its padded number, its formatted line and a destination that plays it; all keys differ |
| Menus.TrackMenuStrippedKey | spoppy/menus.py:136-140 | with padding stripped, the keys of a playlist menu are "sp" and 1..n in order |
| Menus.TrackNumberUnique | spoppy/menus.py:137-140 | only track i's option has the stripped key i+1 |
| Menus.SelectTrackByNumber | spoppy/menus.py:134-142 | typing a track's number without padding selects that track |
| Menus.RespondTrackNumber | spoppy/menus.py:56-60 | the menu answers a typed track number with that track, since no global option claims a number |
| Menus.ShufflePlayByPrefix | spoppy/menus.py:136 | typing "s" or "sp" in a playlist menu shuffle-plays it |
| Menus.Listable | spoppy/menus.py:98-101 | only container entries with a non-empty name and a link are listed |
| Menus.ListableMembers | spoppy/menus.py:98-101 | an entry is listed exactly when it has a non-empty name and a link, and it is listed as often as it occurs in the container |
| Menus.OverviewPlaylists | spoppy/menus.py:96-104 | every listed playlist has a name and a link |
| Menus.OverviewOrder | spoppy/menus.py:96-104 | the overview lists exactly the container's entries with a name and a link, each as often as it occurs in the container, in ascending name order |
| Menus.PlayListOverviewOptions | spoppy/menus.py:93-109 | option i of the overview has key i+1 padded to four characters, the linked playlist's own name, and a destination opening that playlist; all keys differ |
| Menus.NumberedPlaylists | spoppy/menus.py:105-108 | the loop over the sorted playlists gives position i the padded key i+1 and keeps the keys distinct |
| AudioSink.Sink.constructor | spoppy/sink.py:22-27 | a sink starts without a device |
| AudioSink.Sink.OnMusicDelivery | spoppy/sink.py:29-50 | a sample type other than 16-bit native-endian is an assertion failure and leaves the device alone. Otherwise a missing device is created with the name, byte order, rate, channel count and period size of this batch, the frames are written, and the device's answer is returned. An existing device keeps its configuration |
| AudioSink.DeviceAfterWrite | spoppy/sink.py:33-50 | one write to a missing device creates it with the sink's name, the byte order's sample format, and this batch's rate, channel count and period size, holding just these frames. An existing device keeps its configuration and gains these frames at the end |
| AudioSink.ExistingDeviceKeepsConfiguration | spoppy/sink.py:33-50 | whatever is written to an open device, its configuration stays and the writes pile up in order |
| AudioSink.DeviceConfiguredByFirstBatch | spoppy/sink.py:33-50 | written from scratch, the device is configured from the first batch alone and holds every batch's frames in order |
| AudioSink.Player.MusicDelivered | spoppy/sink.py:105-107 | the player records each notification in order |
| AudioSink.SpoppyAlsaSink.constructor | spoppy/sink.py:61-70 | a new pipeline is playing, with an empty queue, no settings and a fresh default sink |
| AudioSink.SpoppyAlsaSink.Clear | spoppy/sink.py:72-77 | `clear` empties the queue and changes nothing else |
| AudioSink.SpoppyAlsaSink.Pause | spoppy/sink.py:79-80 | `pause` stops playing and changes nothing else |
| AudioSink.SpoppyAlsaSink.Play | spoppy/sink.py:82-83 | `play` resumes playing and changes nothing else |
| AudioSink.SpoppyAlsaSink.Setup | spoppy/sink.py:85-89 | `setup` records the sample rate and frame count |
| AudioSink.CloneFormat | spoppy/sink.py:116-119 | the queued format keeps the sample type, rate, frame size and channel count the live format reported on delivery |
| AudioSink.SpoppyAlsaSink.OnMusicDelivery | spoppy/sink.py:113-121 | the batch is appended to the queue with a copy of its format, the settings are recorded only if none are, and every frame is reported as taken |
| AudioSink.SpoppyAlsaSink.RunStep | spoppy/sink.py:91-111 | one pass of `run`: stop outside the pause poll drops the queue and ends the thread. When paused the thread waits, with the queue, player and device unchanged. An empty queue times out. Otherwise the oldest batch is taken and the player told; then either the batch is written or the sink's assertion ends the thread |
| AudioSink.Enqueue | spoppy/sink.py:113-121 | repeated deliveries queue the batches in order; the first delivery's settings win |
| AudioSink.Drain | spoppy/sink.py:91-111 | while playing and not stopped, n passes write the n oldest batches and notify the player of them, in order |
| AudioSink.StayPaused | spoppy/sink.py:92-94 | while paused, every pass waits and nothing else changes, even with the stop event set once the thread is parked |
| AudioSink.DrainAll | spoppy/sink.py:91-111 | playing out a queue of playable batches writes them all in order and configures the device from the first |
| AudioSink.PlayInOrder | spoppy/sink.py:91-121 | batches reach the device, and their notifications the player, in delivery order; settings and device configuration come from the first batch |
| AudioSink.PauseHoldsBatches | spoppy/sink.py:79-94 | while paused nothing is written and nothing is lost; after `play` every batch is written in order |
| AudioSink.ClearDropsQueued | spoppy/sink.py:72-77 | after `clear` only later deliveries reach the device, while the first delivery's settings are kept |
| AudioSink.StopDropsQueue | spoppy/sink.py:92-111 | with the stop event set, the next pass ends the thread with an empty queue and no write |
| AudioSink.StopWhilePaused | spoppy/sink.py:92-94 | a thread parked in the pause poll ignores the stop event. With playable batches queued, after `play` it writes exactly one more batch, then exits with the queue emptied |
| AudioSink.CrashOnForeignSampleType | spoppy/sink.py:105-110 | a batch of another sample type is still announced to the player, then the failed assertion ends the thread before anything is written |

## Left out

- Terminal I/O is not modelled:
  - `Menu.get_response` reads input in a loop. When the up item is hidden, it compares the answer with 'u' and asks again on a match. It is left out because it is I/O. Whether that comparison ever holds depends on the value of `responses.UP`, and `spoppy/responses.py` is not part of this model.
  - `readchar` and `single_char_with_timeout` (`spoppy/util.py:17-43`) read the terminal with timeouts.
  - The `__main__` block of `spoppy/util.py` is also out.
- `Menu.initialize` and the per-class `get_header` texts are not separate members. A menu is given its options, header and up-item flag directly (`Menus.Menu`).
- `MainMenu.get_options` is a constant one-entry dictionary whose destination is another menu object. It is not modelled, because the navigator and menu objects are outside the model.
- Destinations are tags, not the callables of the source. `shuffle_play` and `select_song` call into the player, which is not part of this model.
- Menus.IsValidResponse: `or` falls through on any falsy global answer; the model falls through only on "no match". The two agree only if `responses.UP` and `responses.QUIT` are truthy. `spoppy/responses.py` is not part of this model, so this is assumed. The evidence is `spoppy/menus.py:49-52`: `while not response` would never return a falsy `UP` or `QUIT`.
- Strings.Lower: only ASCII letters are lower-cased. Python's Unicode case mapping is not modelled.
- Util.SortedMenuItems: `sorted(items)` compares whole `(key, value)` pairs. The model sorts by key and keeps the input order of equal keys, so it can differ only for duplicate keys.
- `sorted(self._options.items())` in `get_ui` compares pairs too. Dictionary keys are distinct, so sorting by key is the same there.
- The laziness of the `sorted_menu_items` generator is not modelled. The method returns the whole output sequence.
- `calculate_duration`, imported by `spoppy/sink.py`, is not part of this model. The run loop's `frame_duration` is computed but never used. The model reads the settings it would use and nothing more.
- Some state of the audio path is left out:
  - Threads, `time.sleep`, and the queue's blocking and timeouts are left out. Each pass of the run loop is one `RunStep` call.
  - The stop event is the `stopSet` argument of each pass.
  - Concurrent access to the queue and the settings is not modelled.
- ALSA is abstract state:
  - The `alsaaudio` module is a `Device` value recording its name, format, rate, channels, period size and writes.
  - The two `PCM` constructor spellings (`device=` and `card=`) and the `PCM_NORMAL` mode are not distinguished.
  - The machine's byte order is a constructor argument.
  - What the device's `write` returns is the `accepted` argument.
- `should_run`, `seconds_sent` and the `session` argument are set or carried but never read by the core. They are left out or only carried along.
- Logging is left out.
- `format_album`'s year is an integer; how a non-integer year would print is not modelled.
- Util.FormatAlbumYear: reading the year back is stated for non-negative years only; a negative year prints with a leading '-'.
