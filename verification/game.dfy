/** The lottery contract's state and its transitions: a week is opened, played while
    open, and closed by recording its winning draw. Every transition returns the new
    state, or `None` when one of the contract's assertions fails (nothing changes then).
    The network timestamp is the parameter `now`. */
module Game {

  import opened Wrappers
  import opened Primitives
  import opened Merkle
  import opened Lotto

  /** A week may only be opened more than this long after the previous one was opened
      (a day, if the timestamp counts seconds). */
  const START_GAP: U64 := 86400

  /** How long each week is open (six days, if the timestamp counts seconds); the draw is
      made after it. */
  const GAME_DURATION: U64 := 518400

  /** The record of the current (or last) game week shown to players. */
  datatype GameBoard = GameBoard(gmWeek: Field, startTime: U64, endTime: U64, gameStatus: bool)

  /** The board before any week is opened: every field is zero. */
  const ZERO_BOARD := GameBoard(0, 0, 0, false)

  /** The winning numbers before any draw: every field is zero. */
  const ZERO_NUMBERS := LottoNumbers(0, [0, 0, 0, 0, 0, 0])

  /** The contract's on-chain state. `done` is true when no week is open. */
  datatype GameState = GameState(
    board: GameBoard,
    done: bool,
    week: Field,
    timeStart: U64,
    timeEnd: U64,
    duration: U64,
    winningNumbers: LottoNumbers,
    winHistory: seq<LottoNumbers>,
    winHash: Field,
    storageRoot: Field)

  /** What every reachable state satisfies:
      - the duration is fixed at six days;
      - every opening was more than a day after the previous one, so
        `week * (START_GAP + 1) <= timeStart`, which keeps the week far below the field size;
      - before the first week the board is all zeros; afterwards it records the
        current week and its window;
      - an open week's window is `duration` long;
      - the history holds one draw per closed week, the i-th closing week i + 1, and
        once a week is closed its draw and commitment are the current winning ones. */
  ghost predicate Invariant(c: Crypto, g: GameState)
  {
    && g.duration == GAME_DURATION
    && g.week * (START_GAP + 1) <= g.timeStart
    && (g.week == 0 ==> g.done && g.board == ZERO_BOARD)
    && (g.week > 0 ==> g.board == GameBoard(g.week, g.timeStart, g.timeEnd, false))
    && (!g.done ==> g.timeEnd == g.timeStart + g.duration)
    && |g.winHistory| == (if g.done then g.week else g.week - 1)
    && (forall i :: 0 <= i < |g.winHistory| ==> g.winHistory[i].gmWeek == i + 1)
    && (g.week > 0 && g.done ==>
          g.winningNumbers == g.winHistory[g.week - 1] && g.winHash == Commit(c.hash, g.winningNumbers))
  }

  /** The state of a freshly deployed contract at time `now`: no week is open, the
      week counter and start time are zero, the end time is the deployment time, and the
      entry store is the empty tree of height 8. The first week can be opened once the
      clock is past one day and the new window's end still fits in 64 bits. */
  function Init(c: Crypto, now: U64): (g: GameState)
    ensures Invariant(c, g)
    ensures && g.done && g.week == 0 && g.board == ZERO_BOARD
            && g.timeStart == 0 && g.timeEnd == now && g.duration == GAME_DURATION
    ensures g.winningNumbers == ZERO_NUMBERS && g.winHash == 0 && g.winHistory == []
    ensures g.storageRoot == EmptyRoot(c.hash, WITNESS8_HEIGHT)
    ensures forall t: U64 :: StartWeek(g, t).Some? <==> START_GAP < t && t + GAME_DURATION < U64_LIMIT
  {
    GameState(
      board := ZERO_BOARD,
      done := true,
      week := 0,
      timeStart := 0,
      timeEnd := now,
      duration := GAME_DURATION,
      winningNumbers := ZERO_NUMBERS,
      winHistory := [],
      winHash := 0,
      storageRoot := EmptyRoot(c.hash, WITNESS8_HEIGHT))
  }

  /** Opens the next week. It fails unless no week is open, the clock is more than a
      day past the previous opening, and the new end time fits in 64 bits. On success
      the week counter advances by one, the window becomes [now, now + duration], the
      board records the new week and window, and nothing else changes. */
  function StartWeek(g: GameState, now: U64): (r: Option<GameState>)
    ensures r.Some? <==> g.done && g.timeStart + START_GAP < now && now + g.duration < U64_LIMIT
    ensures r.Some? ==>
              && !r.value.done
              && r.value.week == FieldAdd(g.week, 1)
              && r.value.timeStart == now
              && r.value.timeEnd == now + g.duration
              && r.value.board == GameBoard(r.value.week, now, r.value.timeEnd, false)
    ensures r.Some? ==>
              && r.value.duration == g.duration
              && r.value.winningNumbers == g.winningNumbers
              && r.value.winHistory == g.winHistory
              && r.value.winHash == g.winHash
              && r.value.storageRoot == g.storageRoot
  {
    match AddU64(g.timeStart, START_GAP)
    case None => None
    case Some(earliest) =>
      if !(now > earliest) then None
      else
        match AddU64(now, g.duration)
        case None => None
        case Some(newEnd) =>
          if !g.done then None
          else
            var week := FieldAdd(g.week, 1);
            Some(g.(
              timeStart := now,
              timeEnd := newEnd,
              done := false,
              week := week,
              board := GameBoard(week, now, newEnd, false)))
  }

  /** Closes the open week with its winning draw (corrected: the draw is also appended
      to the win history). It fails unless the window is over, a week is open and the
      draw names the open week. On success the week is closed, the draw and its
      commitment become the winning ones, the history gains exactly the draw, and the
      week counter, window and board do not change. */
  function EndWeek(c: Crypto, g: GameState, now: U64, winningNums: LottoNumbers): (r: Option<GameState>)
    ensures r.Some? <==> now >= g.timeEnd && !g.done && winningNums.gmWeek == g.week
    ensures r.Some? ==>
              && r.value.done
              && r.value.winningNumbers == winningNums
              && r.value.winHash == Commit(c.hash, winningNums)
              && r.value.winHistory == g.winHistory + [winningNums]
    ensures r.Some? ==>
              && r.value.week == g.week
              && r.value.timeStart == g.timeStart
              && r.value.timeEnd == g.timeEnd
              && r.value.duration == g.duration
              && r.value.board == g.board
              && r.value.storageRoot == g.storageRoot
  {
    if now >= g.timeEnd && !g.done && winningNums.gmWeek == g.week then
      Some(g.(
        done := true,
        winningNumbers := winningNums,
        winHistory := g.winHistory + [winningNums],
        winHash := Commit(c.hash, winningNums)))
    else None
  }

  /** The closing transition as the contract writes it: the draw is pushed onto a copy
      of the history that is never stored back, so the stored history does not change. */
  function EndWeekAsWritten(c: Crypto, g: GameState, now: U64, winningNums: LottoNumbers): (r: Option<GameState>)
    ensures r.Some? <==> now >= g.timeEnd && !g.done && winningNums.gmWeek == g.week
    ensures r.Some? ==> r.value.winHistory == g.winHistory
    ensures r.Some? ==> r.value == EndWeek(c, g, now, winningNums).value.(winHistory := g.winHistory)
  {
    if now >= g.timeEnd && !g.done && winningNums.gmWeek == g.week then
      // the extended copy of the history is dropped here
      Some(g.(
        done := true,
        winningNumbers := winningNums,
        winHash := Commit(c.hash, winningNums)))
    else None
  }

  /** The checks a play must pass: the caller names the open week, a week is open, and
      the player's signature covers their key's field encoding followed by the entry's
      commitment. The entry itself is not stored, so the state does not change. */
  function Play(c: Crypto, g: GameState, pubkey: PublicKey, signature: Signature, week: Field, lottoEntry: LottoNumbers)
    : (r: Option<GameState>)
    ensures r.Some? <==>
              && week == g.week
              && !g.done
              && c.verify(signature, pubkey, c.keyFields(pubkey) + [Commit(c.hash, lottoEntry)])
    ensures r.Some? ==> r.value == g
  {
    if week == g.week && !g.done then
      var lottoEntryHash := Commit(c.hash, lottoEntry);
      var newLeaf := c.keyFields(pubkey) + [lottoEntryHash];
      if c.verify(signature, pubkey, newLeaf) then Some(g) else None
    else None
  }

  /** In a reachable state the week counter is far below the field size, so adding one
      never wraps. */
  lemma WeekBelowModulus(c: Crypto, g: GameState)
    requires Invariant(c, g)
    ensures g.week + 1 < FIELD_MODULUS
    ensures FieldAdd(g.week, 1) == g.week + 1
  {
  }

  /** Opening a week keeps the invariant and advances the week by exactly one. */
  lemma StartWeekPreservesInvariant(c: Crypto, g: GameState, now: U64)
    requires Invariant(c, g)
    requires StartWeek(g, now).Some?
    ensures Invariant(c, StartWeek(g, now).value)
    ensures StartWeek(g, now).value.week == g.week + 1
  {
  }

  /** Closing a week keeps the invariant (with the corrected closing transition). */
  lemma EndWeekPreservesInvariant(c: Crypto, g: GameState, now: U64, winningNums: LottoNumbers)
    requires Invariant(c, g)
    requires EndWeek(c, g, now, winningNums).Some?
    ensures Invariant(c, EndWeek(c, g, now, winningNums).value)
  {
  }

  /** With the contract's own closing transition the invariant breaks at the first
      draw: the week is closed but the stored history stays empty. */
  lemma AsWrittenLosesDraw(c: Crypto, deployedAt: U64, openedAt: U64, closedAt: U64, winningNums: LottoNumbers)
    requires START_GAP < openedAt && openedAt + GAME_DURATION < U64_LIMIT
    requires openedAt + GAME_DURATION <= closedAt
    requires winningNums.gmWeek == 1
    ensures StartWeek(Init(c, deployedAt), openedAt).Some?
    ensures var first := StartWeek(Init(c, deployedAt), openedAt).value;
            var closed := EndWeekAsWritten(c, first, closedAt, winningNums);
            && closed.Some?
            && closed.value.done
            && closed.value.week == 1
            && closed.value.winHistory == []
            && !Invariant(c, closed.value)
  {
  }

  /** The opening as the contract writes it, if a state read after a `set` in the same
      call returns the value from before the call: the new end time is computed from the
      previous start, and the board records the previous start, end and status. */
  function StartWeekCachedReads(g: GameState, now: U64): (r: Option<GameState>)
    ensures r.Some? <==> g.done && g.timeStart + START_GAP < now && g.timeStart + g.duration < U64_LIMIT
    ensures r.Some? ==>
              && r.value.timeStart == now
              && r.value.timeEnd == g.timeStart + g.duration
              && r.value.board == GameBoard(FieldAdd(g.week, 1), g.timeStart, g.timeEnd, true)
    ensures r.Some? ==>
              && !r.value.done
              && r.value.week == FieldAdd(g.week, 1)
              && r.value.duration == g.duration
              && r.value.winningNumbers == g.winningNumbers
              && r.value.winHistory == g.winHistory
              && r.value.winHash == g.winHash
              && r.value.storageRoot == g.storageRoot
    ensures r.Some? ==> StartWeek(g, now).Some? ==>
              r.value == StartWeek(g, now).value.(timeEnd := r.value.timeEnd, board := r.value.board)
  {
    match AddU64(g.timeStart, START_GAP)
    case None => None
    case Some(earliest) =>
      if !(now > earliest) then None
      else
        // the start read here is the one from before the call
        match AddU64(g.timeStart, g.duration)
        case None => None
        case Some(newEnd) =>
          if !g.done then None
          else
            var week := FieldAdd(g.week, 1);
            Some(g.(
              timeStart := now,
              timeEnd := newEnd,
              done := false,
              week := week,
              board := GameBoard(week, g.timeStart, g.timeEnd, g.done)))
  }

  /** With cached reads the first week's window ends at `GAME_DURATION` whenever it was
      opened, so a first week opened at any `t >= GAME_DURATION` can be closed at `t`. */
  lemma CachedReadsCloseAtOnce(c: Crypto, deployedAt: U64, t: U64, winningNums: LottoNumbers)
    requires GAME_DURATION <= t
    requires winningNums.gmWeek == 1
    ensures StartWeekCachedReads(Init(c, deployedAt), t).Some?
    ensures EndWeek(c, StartWeekCachedReads(Init(c, deployedAt), t).value, t, winningNums).Some?
  {
  }

  /** An opened week runs for its full duration: it cannot be closed before
      `now + duration`. */
  lemma WeekCannotCloseEarly(c: Crypto, g: GameState, now: U64, closeAt: U64, winningNums: LottoNumbers)
    requires StartWeek(g, now).Some?
    requires closeAt < now + g.duration
    ensures EndWeek(c, StartWeek(g, now).value, closeAt, winningNums) == None
  {
  }

  /** A second opening without a closing in between fails. */
  lemma NoSecondStartWithoutEnd(g: GameState, t1: U64, t2: U64)
    requires StartWeek(g, t1).Some?
    ensures StartWeek(StartWeek(g, t1).value, t2) == None
  {
  }

}
