/** Shared play: the table of incoming command tokens, the outbound event
    strings `token|payload`, and what each receiving handler does to the
    board. The payload codec (`json_dump`, `json_load`) belongs to a module
    outside this model, so it appears as a pair of function parameters. */
module Collaboration {
  import opened Wrappers

  /** The handlers `_setup_dispatch_table` registers. */
  datatype Handler = ReceiveNewGame | ReceiveDotClick

  /** One entry of `_processing_methods`: the handler and its description. */
  datatype Entry = Entry(handler: Handler, description: string)

  /** `_processing_methods`, built once by `_setup_dispatch_table`. */
  function ProcessingMethods(): (m: map<char, Entry>)
    ensures forall t :: t in m <==> t == 'n' || t == 'p'
  {
    map['n' := Entry(ReceiveNewGame, "get a new game grid"),
        'p' := Entry(ReceiveDotClick, "get a dot click")]
  }

  /** The token the sending side puts in front of the payload each handler
      receives: `send_new_game` writes `n`, `send_dot_click` writes `p`. */
  function TokenOf(h: Handler): char {
    match h
    case ReceiveNewGame => 'n'
    case ReceiveDotClick => 'p'
  }

  /** The line both senders write: `'n|%s'` and `'p|%s'` are `token|payload`. */
  function Event(token: char, payload: string): string {
    [token] + "|" + payload
  }

  /** `send_new_game`: the whole board, dumped, after token `n`. */
  function NewGameEvent(dump: seq<int> -> string, board: seq<int>): (r: string)
    ensures |r| >= 2 && r[..2] == "n|" && r[2..] == dump(board)
  {
    Event(TokenOf(ReceiveNewGame), dump(board))
  }

  /** `send_dot_click`: the pair `[dot, color]`, dumped, after token `p`. */
  function DotClickEvent(dump: seq<int> -> string, dot: int, color: int): (r: string)
    ensures |r| >= 2 && r[..2] == "p|" && r[2..] == dump([dot, color])
  {
    Event(TokenOf(ReceiveDotClick), dump([dot, color]))
  }

  /** Why a handler stopped: `(dot, color) = payload` met a list whose length
      is not two, or the board has no cell `dot`. */
  datatype HandlerError = UnpackError(length: nat) | NoSuchCell(dot: int)

  /** The board after handler `h` runs on the decoded `payload`.
      `_receive_new_game` replaces the whole board; `_receive_dot_click`
      unpacks `payload` as `(dot, color)` and sets that one cell. */
  function Receive(h: Handler, board: seq<int>, payload: seq<int>): (r: Result<seq<int>, HandlerError>)
    ensures h == ReceiveNewGame ==> r == Ok(payload)
    ensures h == ReceiveDotClick ==> (r.Ok? <==> |payload| == 2 && 0 <= payload[0] < |board|)
    ensures h == ReceiveDotClick && r.Ok? ==>
              |r.value| == |board| && r.value[payload[0]] == payload[1]
              && forall i :: 0 <= i < |board| && i != payload[0] ==> r.value[i] == board[i]
  {
    match h
    case ReceiveNewGame => Ok(payload)
    case ReceiveDotClick =>
      if |payload| != 2 then Err(UnpackError(|payload|))
      else if !(0 <= payload[0] < |board|) then Err(NoSuchCell(payload[0]))
      else Ok(board[payload[0] := payload[1]])
  }

  // ---------------------------------------------------------------------
  // Properties

  /** Every handler is reached through exactly the token its sender uses,
      and every token of the table names the handler that token stands for. */
  lemma TableMatchesSenders()
    ensures forall h: Handler :: TokenOf(h) in ProcessingMethods()
                                 && ProcessingMethods()[TokenOf(h)].handler == h
    ensures forall t :: t in ProcessingMethods() ==> TokenOf(ProcessingMethods()[t].handler) == t
  {
  }

  /** An event holds its token as the first character, then `|`, then the
      payload unchanged, even when the payload itself holds a `|`. */
  lemma EventFraming(token: char, payload: string)
    ensures |Event(token, payload)| == |payload| + 2
    ensures Event(token, payload)[0] == token && Event(token, payload)[1] == '|'
    ensures Event(token, payload)[2..] == payload
  {
    assert Event(token, payload) == [token, '|'] + payload;
  }

  /** Two events are equal only when their tokens and payloads are: the line
      determines both. */
  lemma EventInjective(t1: char, p1: string, t2: char, p2: string)
    requires Event(t1, p1) == Event(t2, p2)
    ensures t1 == t2 && p1 == p2
  {
    EventFraming(t1, p1);
    EventFraming(t2, p2);
  }

  /** A board sent with `send_new_game` and delivered to its handler replaces
      the receiver's board, whatever it held, with the sender's. */
  lemma NewGameDelivered(dump: seq<int> -> string, load: string -> seq<int>,
                         board: seq<int>, receiver: seq<int>)
    requires load(dump(board)) == board
    ensures NewGameEvent(dump, board)[0] in ProcessingMethods()
    ensures Receive(ProcessingMethods()[NewGameEvent(dump, board)[0]].handler, receiver,
                    load(NewGameEvent(dump, board)[2..])) == Ok(board)
  {
    EventFraming('n', dump(board));
  }

  /** A click sent with `send_dot_click` and delivered to its handler sets
      cell `dot` of the receiver's board to `color` and leaves every other
      cell as it was; a board without cell `dot` is left alone. */
  lemma DotClickDelivered(dump: seq<int> -> string, load: string -> seq<int>,
                          dot: int, color: int, receiver: seq<int>)
    requires load(dump([dot, color])) == [dot, color]
    ensures DotClickEvent(dump, dot, color)[0] in ProcessingMethods()
    ensures var r := Receive(ProcessingMethods()[DotClickEvent(dump, dot, color)[0]].handler,
                             receiver, load(DotClickEvent(dump, dot, color)[2..]));
            && (r.Ok? <==> 0 <= dot < |receiver|)
            && (r.Ok? ==> |r.value| == |receiver| && r.value[dot] == color
                          && forall i :: 0 <= i < |receiver| && i != dot ==> r.value[i] == receiver[i])
  {
    EventFraming('p', dump([dot, color]));
  }

  /** Receiving the same event twice leaves the board as receiving it once. */
  lemma ReceiveIdempotent(h: Handler, board: seq<int>, payload: seq<int>)
    requires Receive(h, board, payload).Ok?
    ensures Receive(h, Receive(h, board, payload).value, payload) == Receive(h, board, payload)
  {
    if h == ReceiveDotClick {
      var once := board[payload[0] := payload[1]];
      assert once[payload[0] := payload[1]] == once;
    }
  }
}
