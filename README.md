# Cookie Search: the activity's save/restore codec and shared-play messages

Cookie Search is a grid game packaged as a Sugar activity. `SearchActivity`
keeps the game's state in the Journal between sessions and sends board
events to the other players in a shared session. This project models the
self-contained logic of `SearchActivity.py`, and proves what the code
promises about it:

- the `dotlist` text that `write_file` builds from the board's cell values,
  and the `split()`/`int()` loop of `_restore` that reads it back, including
  the trailing space the encoder adds when the last value is a repeat;
- the rules `_restore` applies to the elapsed time, the level and the score
  list;
- the numbered text `_write_scores_to_clipboard` builds;
- the dispatch table of `_setup_dispatch_table`, the `token|payload` lines of
  `send_new_game` and `send_dot_click`, and what `_receive_new_game` and
  `_receive_dot_click` do to the board.

Modules:

- `Wrappers` (wrappers.dfy): `Option`, `Result`, `Outcome`.
- `PyText` (pytext.dfy): the Python builtins used by the codec: `str(n)` for
  an integer, `s.split()` with no separator, and `int(t)` in base 10, with
  underscores between digits as Python 3.6 accepts them. `Strip` is the
  white space `int()` removes from both ends before it parses.
- `DotList` (dotlist.dfy): the board text. `EncodeDotList` is the loop of
  `write_file`; `ParseDotList` is the loop of `_restore`. Both are proved
  against the functions `Encoding` and `Decoding`, and `RoundTrip` says that
  `Decoding(Encoding(ds)) == Ok(ds)` for every list `ds`.
- `ScoreClipboard` (scores.dfy): the clipboard text, and the lines a reader
  gets back from it.
- `Collaboration` (collaboration.dfy): the token table, the outbound event
  lines, and each handler's effect on a board.
- `Activity` (activity.dfy): the Journal metadata, a stand-in `Game` class
  holding the state the activity touches, and the `SearchActivity` class with
  `WriteFile`, `Restore`, `SendNewGame`, `ReceiveNewGame` and
  `ReceiveDotClick`. `WriteThenRestore` says that saving and then restoring
  gives back the board, the scores and the level, and one second less of
  elapsed time.

Abstractions:

- Journal metadata is held as the values `_restore` obtains from it
  (`MetaValue`). `write_file` stores the scores as the text of `json.dump`
  (`_data_dumper`), but the seconds and the level as plain integers, while
  `_restore` reads all three back through `json.load` (`_data_loader`). The
  model holds each of these as the decoded value on both sides, so it
  assumes that the Journal hands every entry back as text, for which
  `json.load` of an integer's decimal text is that integer.
- `json_dump` and `json_load` (from `utils`) are not part of this model.
  For event payloads they are function parameters `dump` and `load`. The
  lemmas about delivery require only that `load` undoes `dump` on the one
  value sent.
- The game object (`game.py`) is not part of this model. `Game` keeps only
  the board as a list of integer cell values, the elapsed seconds and the
  level. A dot's colour is a cell value too.
- Score entries are held as the text `%s` renders for them, because their
  type is set by the game object.
- The transport behind `send_event` is not part of this model:
  `SendNewGame` returns the line it would hand over.

Two points about the code itself:

- `SearchActivity.py` has no inbound line decoder and no error types for
  events. The model has only the table lookup, the outbound prefixing, and
  `EventFraming`/`EventInjective`, which say that a line determines its token
  and payload.
- Cells and colours are integers, because `_restore` rebuilds the board with
  `int()`.

## Model

| member | source | states |
|---|---|---|
| `PyText.IntToStr` | SearchActivity.py:155 | `str(dot)` is a non-empty token without white space that starts with a digit or `-` and ends with a digit |
| `PyText.NatToStr` | SearchActivity.py:155 | the decimal digits of a natural number: non-empty, all ASCII digits, no leading zero |
| `PyText.Split` | SearchActivity.py:184 | every field `split()` returns is non-empty and holds no white space |
| `PyText.SplitJoin` | SearchActivity.py:184 | splitting tokens joined by single spaces, with or without one trailing space, gives back exactly those tokens |
| `PyText.JoinSnoc` | SearchActivity.py:153-157 | appending a token to a space-joined text adds one space and the token |
| `PyText.ParseInt` | SearchActivity.py:186 | `int(t)` either yields a value or raises ValueError carrying `t` itself |
| `PyText.ParseDigitsNatToStr` | SearchActivity.py:186 | the digit parser reads the decimal text of every natural number back to that number |
| `PyText.ParseIntToStr` | SearchActivity.py:186 | `int(str(x)) == x` for every integer, negatives included |
| `DotList.Strs` | SearchActivity.py:155 | one `str` token per cell, in order |
| `DotList.FirstIndex` | SearchActivity.py:156 | `list.index(v)` is the position of the first occurrence of `v`: no earlier position holds `v` |
| `DotList.IndexGuard` | SearchActivity.py:156 | the guard `index(dot) < len - 1` holds at every position but the last, and at the last exactly when its value occurs earlier |
| `DotList.EncodeDotList` | SearchActivity.py:153-157 | the loop stores the values joined by single spaces, plus one trailing space exactly when the last value is a repeat |
| `DotList.EncodingStart` | SearchActivity.py:153-157 | an empty board gives the empty text and only it does; a non-empty board's text begins with `str` of the first cell, never with a space |
| `DotList.TrailingSpace` | SearchActivity.py:156-157 | the text ends in a space if and only if the last value also occurs at an earlier position; otherwise it is the plain space-joined list |
| `DotList.ParseAll` | SearchActivity.py:184-186 | parsing succeeds iff `int()` accepts every token; then there is one value per token, in token order; otherwise the error is the first rejected token |
| `DotList.ParseDotList` | SearchActivity.py:182-187 | the append loop over `split()` yields exactly `Decoding(text)`: values in token order, or the first rejected token |
| `DotList.SplitEncoding` | SearchActivity.py:184 | splitting the stored text gives one token per cell, `str` of that cell, trailing space or not |
| `DotList.RoundTrip` | SearchActivity.py:153-186 | reading back the text `write_file` stored gives the original list, duplicates and negatives included |
| `ScoreClipboard.FormatScores` | SearchActivity.py:202-204 | the loop builds `ScoresText(allScores)`: each score's numbered line, in list order |
| `ScoreClipboard.NumberedSnoc` | SearchActivity.py:203-204 | one more score appends exactly one line, numbered by its position plus one |
| `ScoreClipboard.LinesNumbered` | SearchActivity.py:203-204 | for scores without newlines, the text numbered from `first` splits into one line per score, line `i` being `"<first+i>: <score i>"` |
| `ScoreClipboard.ScoreLines` | SearchActivity.py:202-204 | the clipboard text has exactly `len(all_scores)` lines, line `i` is `"<i+1>: <score i>"` ended by a newline; no scores, empty text |
| `Collaboration.ProcessingMethods` | SearchActivity.py:300-305 | the table has an entry for `n` and for `p` and for no other token |
| `Collaboration.TableMatchesSenders` | SearchActivity.py:302-320 | `n` routes to the new-game handler and `p` to the dot-click handler, the tokens the two senders write |
| `Collaboration.NewGameEvent` | SearchActivity.py:309-311 | the line `send_new_game` hands on is `n\|` followed by the dumped board, unchanged |
| `Collaboration.DotClickEvent` | SearchActivity.py:318-320 | the line `send_dot_click` hands on is `p\|` followed by the dumped pair `[dot, color]`, unchanged |
| `Collaboration.EventFraming` | SearchActivity.py:311 | an event line (`Event`, the `token\|payload` form both senders write) is the token, then `\|`, then the payload unchanged |
| `Collaboration.EventInjective` | SearchActivity.py:320 | two event lines are equal only when their tokens and payloads are |
| `Collaboration.Receive` | SearchActivity.py:313-325 | a new game replaces the board with the payload; a dot click succeeds iff the payload unpacks into two values and names a cell, and then changes that cell alone |
| `Collaboration.NewGameDelivered` | SearchActivity.py:309-316 | the line `send_new_game` builds is routed by its token to the new-game handler, which sets any receiver's board to the sent board |
| `Collaboration.DotClickDelivered` | SearchActivity.py:318-325 | the line `send_dot_click` builds is routed to the dot-click handler, which sets cell `dot` to `color` and leaves every other cell alone |
| `Collaboration.ReceiveIdempotent` | SearchActivity.py:313-325 | handling the same event twice gives the board that handling it once gives |
| `Activity.Written` | SearchActivity.py:150-161 | `write_file` sets the four session entries (board text, scores, seconds, level) and leaves every other entry as it was |
| `Activity.Restored` | SearchActivity.py:168-193 | a failed restore never touches the scores; time fails only on a non-number entry, else becomes stored minus one or 0; an absent level stays |
| `Activity.RestoreRules` | SearchActivity.py:170-192 | with usable entries: time is stored minus one or 0 when absent, level only replaced when present, board the parsed list or unchanged, scores `[]` when absent |
| `Activity.RestoreBadToken` | SearchActivity.py:182-187 | a board token `int()` rejects stops the restore with that token, after time and level are set, with board and scores untouched |
| `Activity.WriteThenRestore` | SearchActivity.py:150-192 | restoring what `write_file` stored gives back board, scores and level, and the elapsed seconds less one, whatever the state before |
| `Activity.SearchActivity.constructor` | SearchActivity.py:104-107 | the score list starts empty; when the Journal holds a board text, the outcome and the session are exactly `Restored` of the metadata from an empty score list, a `Fail` being the exception that escapes `__init__` |
| `Activity.SearchActivity.WriteFile` | SearchActivity.py:150-161 | the new metadata is `Written(old metadata, session)`; the game and the scores are unchanged |
| `Activity.SearchActivity.Restore` | SearchActivity.py:168-193 | the outcome and the new session are exactly `Restored(metadata, old session)` |
| `Activity.SearchActivity.SendNewGame` | SearchActivity.py:309-311 | the line handed to the transport is `n\|` and the dumped current board |
| `Activity.SearchActivity.ReceiveNewGame` | SearchActivity.py:313-316 | the game's board becomes the decoded payload |
| `Activity.SearchActivity.ReceiveDotClick` | SearchActivity.py:322-325 | the board changes as `Receive` says for a dot click; on a failure the board is left alone and the failure returned |

## Left out

- Toolbars, canvas and widgets (`_setup_toolbars`, most of `__init__`): user interface.
- `Gtk.Clipboard().set_text`: only the text built for it is modelled.
- Telepathy and D-Bus tube negotiation (`_shared_cb`, `_sharing_setup`, `_joined_cb`, `_new_tube_cb`, `_list_tubes_reply_cb`, `_list_tubes_error_cb`): network plumbing over foreign libraries.
- `_buddy_joined_cb` and `_buddy_left_cb`: they only log.
- The `_receive_new_game(())` call in `_joined_cb`: its effect depends on `json_load`, which is not part of this model.
- `send_event` and the transport: `SendNewGame` returns the line instead of sending it, and `send_dot_click` is the function `DotClickEvent`.
- Any inbound splitting of `token|payload` lines: the file has none.
- `json_dump`, `json_load`, `_data_dumper`, `_data_loader`: metadata entries are held as decoded values, and payload codecs are parameters. A `json_load` failure and decoded values of other kinds (dicts, strings, floats in a payload) are not modelled.
- `convert_seconds_to_minutes` and the `_game_time` display string it sets: the function is not part of this model.
- `_new_game_cb` and `Game.new_game`: board generation belongs to the game object, which is not part of this model.
- `Game.remote_button_press`: its body is not part of this model. The stand-in `Game.RemoteButtonPress` sets the cell when it exists and otherwise fails, leaving the board alone.
- Activity.WriteThenRestore: holds only under the assumption about the Journal stated above. Within one process, with the seconds and the level still plain integers, `_data_loader` would raise TypeError on them.
- Activity.SearchActivity.constructor: without a `dotlist` entry `__init__` calls `self._game.new_game()`, whose effect belongs to the game object and is not stated; and where Python's `__init__` raises, the model still returns an object, with the failure in `restoreOutcome`.
- Activity.Restored: an all_scores or current_level entry of another kind is rejected with `BadEntry`. Python would assign such a value as it is, but here the level is an integer and the scores are a list of text.
- PyText.ParseInt: non-ASCII Unicode decimal digits, which Python's `int()` also accepts, are rejected.
- Participants, nickname and colours, `joined` and sharing flags: session bookkeeping that nothing in the core reads.
