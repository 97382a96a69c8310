/** The activity object: what it saves to and restores from the Journal's
    metadata, and what the two shared-play handlers do to its game. */
module Activity {
  import opened Wrappers
  import DotList
  import Collaboration

  /** A Journal metadata entry, as the activity reads it back. The entries
      `_restore` passes to `_data_loader` (the scores, the seconds, the level)
      are held as the value `json.load` returns for them; the board's entry
      is plain text. */
  datatype MetaValue = Text(text: string) | Number(number: int) | TextList(items: seq<string>)

  type Metadata = map<string, MetaValue>

  const DotListKey := "dotlist"
  const ScoresKey := "all_scores"
  const TimeKey := "current_gametime"
  const LevelKey := "current_level"

  /** What the Journal keeps of a session: the board, the score history, the
      elapsed seconds and the level. */
  datatype Saved = Saved(board: seq<int>, scores: seq<string>, seconds: int, level: int)

  /** Why `_restore` stopped: an entry whose value has the wrong kind, or a
      board token `int()` rejects (ValueError). */
  datatype RestoreError = BadEntry(key: string) | NotAnInteger(token: string)

  /** The metadata after `write_file`: the four session entries replaced,
      every other entry as it was. */
  function Written(meta: Metadata, s: Saved): (m: Metadata)
    ensures m.Keys == meta.Keys + {DotListKey, ScoresKey, TimeKey, LevelKey}
    ensures m[DotListKey] == Text(DotList.Encoding(s.board))
    ensures m[ScoresKey] == TextList(s.scores)
    ensures m[TimeKey] == Number(s.seconds) && m[LevelKey] == Number(s.level)
    ensures forall k :: k in meta && k !in {DotListKey, ScoresKey, TimeKey, LevelKey} ==> m[k] == meta[k]
  {
    meta[DotListKey := Text(DotList.Encoding(s.board))]
        [ScoresKey := TextList(s.scores)]
        [TimeKey := Number(s.seconds)]
        [LevelKey := Number(s.level)]
  }

  /** `_restore`, step by step. An entry that is present but unusable stops
      it, keeping what the steps before it assigned. */
  function Restored(meta: Metadata, s: Saved): (r: (Outcome<RestoreError>, Saved))
    ensures r.0.Fail? ==> r.1.scores == s.scores
    ensures r.0 == Fail(BadEntry(TimeKey)) <==> TimeKey in meta && !meta[TimeKey].Number?
    ensures r.0 != Fail(BadEntry(TimeKey)) ==>
              r.1.seconds == (if TimeKey in meta then meta[TimeKey].number - 1 else 0)
    ensures LevelKey !in meta ==> r.1.level == s.level
  {
    if TimeKey in meta && !meta[TimeKey].Number? then (Fail(BadEntry(TimeKey)), s)
    else
      var s1 := s.(seconds := if TimeKey in meta then meta[TimeKey].number - 1 else 0);
      if LevelKey in meta && !meta[LevelKey].Number? then (Fail(BadEntry(LevelKey)), s1)
      else
        var s2 := if LevelKey in meta then s1.(level := meta[LevelKey].number) else s1;
        if DotListKey in meta && !meta[DotListKey].Text? then (Fail(BadEntry(DotListKey)), s2)
        else
          var parsed := if DotListKey in meta then DotList.Decoding(meta[DotListKey].text)
                        else Ok(s2.board);
          if parsed.Err? then (Fail(NotAnInteger(parsed.error)), s2)
          else
            var s3 := s2.(board := parsed.value);
            if ScoresKey in meta && !meta[ScoresKey].TextList? then (Fail(BadEntry(ScoresKey)), s3)
            else (Pass, s3.(scores := if ScoresKey in meta then meta[ScoresKey].items else []))
  }

  /** The stand-in for the game object, which lives outside this model:
      only the state the activity saves, restores and updates. */
  class Game {
    /** The cells, as `save_game` returns them. */
    var board: seq<int>
    var gameTimeSeconds: int
    var level: int

    method SaveGame() returns (dots: seq<int>)
      ensures dots == board
    {
      dots := board;
    }

    method RestoreGame(dots: seq<int>)
      modifies this`board
      ensures board == dots
    {
      board := dots;
    }

    /** Cell `dot` takes `color`; a board without that cell is left alone. */
    method RemoteButtonPress(dot: int, color: int) returns (outcome: Outcome<Collaboration.HandlerError>)
      modifies this`board
      ensures 0 <= dot < |old(board)| ==> outcome == Pass && board == old(board)[dot := color]
      ensures !(0 <= dot < |old(board)|) ==> outcome == Fail(Collaboration.NoSuchCell(dot)) && board == old(board)
    {
      if 0 <= dot < |board| {
        board := board[dot := color];
        outcome := Pass;
      } else {
        outcome := Fail(Collaboration.NoSuchCell(dot));
      }
    }
  }

  class SearchActivity {
    const game: Game
    var allScores: seq<string>
    var metadata: Metadata
    /** How the restore in `__init__` ended. */
    var restoreOutcome: Outcome<RestoreError>

    /** The part of `__init__` that concerns the session: no scores yet, and
        when the Journal holds a board the session is restored from it.
        `restoreOutcome` is what `_restore` ended with; a `Fail` stands for the
        exception that escapes `__init__`, so no activity exists afterwards.
        Without a board, `new_game` starts a fresh game inside the game
        object, which lies outside this model. */
    constructor (game: Game, metadata: Metadata)
      modifies game
      ensures this.game == game && this.metadata == metadata
      ensures DotListKey !in metadata ==> allScores == [] && restoreOutcome == Pass
      ensures DotListKey in metadata ==>
                (restoreOutcome, Snapshot()) ==
                Restored(metadata, Saved(old(game.board), [], old(game.gameTimeSeconds), old(game.level)))
    {
      this.game := game;
      this.metadata := metadata;
      allScores := [];
      restoreOutcome := Pass;
      new;
      if DotListKey in metadata {
        restoreOutcome := Restore();
      }
    }

    /** The session as the Journal sees it. */
    function Snapshot(): Saved
      reads this, game
    {
      Saved(game.board, allScores, game.gameTimeSeconds, game.level)
    }

    /** `write_file`: store the board text, the scores, the elapsed seconds
        and the level; the game and the scores are not changed. */
    method WriteFile()
      modifies this`metadata
      ensures metadata == Written(old(metadata), Snapshot())
    {
      var dotList := game.SaveGame();
      var text := DotList.EncodeDotList(dotList);
      metadata := metadata[DotListKey := Text(text)];
      metadata := metadata[ScoresKey := TextList(allScores)];
      metadata := metadata[TimeKey := Number(game.gameTimeSeconds)];
      metadata := metadata[LevelKey := Number(game.level)];
    }

    /** `_restore`: read the session back from the metadata. */
    method Restore() returns (outcome: Outcome<RestoreError>)
      modifies this`allScores, game
      ensures (outcome, Snapshot()) == Restored(metadata, old(Snapshot()))
    {
      if TimeKey in metadata {
        if !metadata[TimeKey].Number? {
          return Fail(BadEntry(TimeKey));
        }
        // one second less, so that the last second is shown again
        game.gameTimeSeconds := metadata[TimeKey].number - 1;
      } else {
        game.gameTimeSeconds := 0;
      }
      if LevelKey in metadata {
        if !metadata[LevelKey].Number? {
          return Fail(BadEntry(LevelKey));
        }
        game.level := metadata[LevelKey].number;
      }
      if DotListKey in metadata {
        if !metadata[DotListKey].Text? {
          return Fail(BadEntry(DotListKey));
        }
        var dotList := DotList.ParseDotList(metadata[DotListKey].text);
        if dotList.Err? {
          return Fail(NotAnInteger(dotList.error));
        }
        game.RestoreGame(dotList.value);
      }
      if ScoresKey in metadata {
        if !metadata[ScoresKey].TextList? {
          return Fail(BadEntry(ScoresKey));
        }
        allScores := metadata[ScoresKey].items;
      } else {
        allScores := [];
      }
      outcome := Pass;
    }

    /** `send_new_game`: the event line handed to the transport. */
    method SendNewGame(dump: seq<int> -> string) returns (event: string)
      ensures event == Collaboration.NewGameEvent(dump, game.board)
    {
      var dots := game.SaveGame();
      event := Collaboration.Event('n', dump(dots));
    }

    /** `_receive_new_game`: the decoded board replaces the game's board. */
    method ReceiveNewGame(load: string -> seq<int>, payload: string)
      modifies game`board
      ensures Collaboration.Receive(Collaboration.ReceiveNewGame, old(game.board), load(payload)) == Ok(game.board)
    {
      var dotList := load(payload);
      game.RestoreGame(dotList);
    }

    /** `_receive_dot_click`: unpack the decoded pair and press that dot. */
    method ReceiveDotClick(load: string -> seq<int>, payload: string)
        returns (outcome: Outcome<Collaboration.HandlerError>)
      modifies game`board
      ensures match Collaboration.Receive(Collaboration.ReceiveDotClick, old(game.board), load(payload))
              case Ok(b) => outcome == Pass && game.board == b
              case Err(e) => outcome == Fail(e) && game.board == old(game.board)
    {
      var pair := load(payload);
      if |pair| != 2 {
        return Fail(Collaboration.UnpackError(|pair|));
      }
      var dot, color := pair[0], pair[1];
      outcome := game.RemoteButtonPress(dot, color);
    }
  }

  // ---------------------------------------------------------------------
  // Properties of saving and restoring

  /** The restore rules, for metadata whose entries have the right kinds and
      whose board text parses: the elapsed time is the stored value less one,
      or 0 when absent; the level is replaced only when present; the board is
      the parsed list, or unchanged when absent; the scores default to []. */
  lemma RestoreRules(meta: Metadata, s: Saved)
    requires TimeKey in meta ==> meta[TimeKey].Number?
    requires LevelKey in meta ==> meta[LevelKey].Number?
    requires DotListKey in meta ==> meta[DotListKey].Text?
                                    && DotList.Decoding(meta[DotListKey].text).Ok?
    requires ScoresKey in meta ==> meta[ScoresKey].TextList?
    ensures var (o, t) := Restored(meta, s);
            && o == Pass
            && t.seconds == (if TimeKey in meta then meta[TimeKey].number - 1 else 0)
            && t.level == (if LevelKey in meta then meta[LevelKey].number else s.level)
            && t.board == (if DotListKey in meta
                           then DotList.Decoding(meta[DotListKey].text).value
                           else s.board)
            && t.scores == (if ScoresKey in meta then meta[ScoresKey].items else [])
  {
  }

  /** A board text holding a token `int()` rejects stops the restore with
      that token, after the time and the level were assigned and before the
      board and the scores are touched. */
  lemma RestoreBadToken(meta: Metadata, s: Saved)
    requires TimeKey in meta ==> meta[TimeKey].Number?
    requires LevelKey in meta ==> meta[LevelKey].Number?
    requires DotListKey in meta && meta[DotListKey].Text?
    requires DotList.Decoding(meta[DotListKey].text).Err?
    ensures var (o, t) := Restored(meta, s);
            && o == Fail(NotAnInteger(DotList.Decoding(meta[DotListKey].text).error))
            && t.board == s.board && t.scores == s.scores
            && t.seconds == (if TimeKey in meta then meta[TimeKey].number - 1 else 0)
            && t.level == (if LevelKey in meta then meta[LevelKey].number else s.level)
  {
  }

  /** Saving and then restoring gives back the board, the scores and the
      level, and the elapsed time one second less; whatever state the
      restoring activity held before does not matter. */
  lemma WriteThenRestore(meta: Metadata, s: Saved, before: Saved)
    ensures Restored(Written(meta, s), before) == (Pass, s.(seconds := s.seconds - 1))
  {
    DotList.RoundTrip(s.board);
  }
}
