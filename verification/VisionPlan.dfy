/** How the Vision writer decides which pieces of a call it frames, how, and whether padding is over afterwards. */
module VisionPlan {
  import opened ByteStrings
  import opened TlsFilter
  import opened VisionFrame
  import opened VisionState

  // ---------- What one call decides

  /** A piece that starts a TLS application-data record, in a call whose bytes are whole records. */
  predicate StartsData(f: Filter, complete: bool, b: Slot) {
    f.tls && |b.Data()| >= 6 && b.Data()[..3] == APPLICATION_DATA_START && complete
  }

  /** Padding is ended one packet early for the sake of older receivers. */
  predicate EndsEarly(f: Filter) {
    !f.tls12 && f.packets <= 1
  }

  function Terminal(f: Filter): Byte {
    if f.xtls then COMMAND_DIRECT else COMMAND_END
  }

  /** The outcome of framing: the command of each framed piece (the pieces after them go out raw), and the
      writer's link afterwards. */
  datatype Plan = Plan(commands: seq<Byte>, link: WriterLink)

  function PlanFrom(f: Filter, complete: bool, pieces: seq<Slot>, i: nat, link: WriterLink): Plan
    requires i <= |pieces|
    decreases |pieces| - i
  {
    if i == |pieces| then Plan([], link)
    else
      var last := i == |pieces| - 1;
      if StartsData(f, complete, pieces[i]) then
        var rest := PlanFrom(f, complete, pieces, i + 1, WriterLink(false, link.direct || f.xtls));
        Plan([if last then Terminal(f) else COMMAND_CONTINUE] + rest.commands, rest.link)
      else if EndsEarly(f) then
        Plan([COMMAND_END], link.(isPadding := false))
      else
        var rest := PlanFrom(f, complete, pieces, i + 1, link);
        Plan([if last && !link.isPadding then Terminal(f) else COMMAND_CONTINUE] + rest.commands, rest.link)
  }

  predicate EndsTerminal(commands: seq<Byte>) {
    commands != [] && commands[|commands| - 1] != COMMAND_CONTINUE
  }

  predicate EndsDirect(commands: seq<Byte>) {
    commands != [] && commands[|commands| - 1] == COMMAND_DIRECT
  }

  lemma {:induction false} PlanShape(f: Filter, complete: bool, pieces: seq<Slot>, i: nat, link: WriterLink)
    requires i <= |pieces|
    ensures var commands := PlanFrom(f, complete, pieces, i, link).commands;
            && |commands| <= |pieces| - i
            && (forall k :: 0 <= k < |commands| ==> 0 <= commands[k] <= 2)
            && (forall k :: 0 <= k < |commands| - 1 ==> commands[k] == COMMAND_CONTINUE)
    decreases |pieces| - i
  {
    if i < |pieces| {
      if StartsData(f, complete, pieces[i]) {
        PlanShape(f, complete, pieces, i + 1, WriterLink(false, link.direct || f.xtls));
      } else if !EndsEarly(f) {
        PlanShape(f, complete, pieces, i + 1, link);
      }
    }
  }

  /** The frame discipline of one call: Continue frames and at most one terminal frame after them; padding is
      over exactly if the terminal frame was planned; direct copy is armed exactly if that frame says so;
      and nothing is left unframed unless padding is over. Early in the call padding may already have been
      ended by a data record, which then obliges a later piece to be the terminal one. */
  lemma {:induction false} PlanDiscipline(f: Filter, complete: bool, pieces: seq<Slot>, i: nat, link: WriterLink)
    requires Consistent(f) && i <= |pieces|
    requires link.isPadding ==> !link.direct
    requires !link.isPadding ==> i < |pieces| && link.direct == f.xtls
    ensures var plan := PlanFrom(f, complete, pieces, i, link);
            && |plan.commands| <= |pieces| - i
            && (forall k :: 0 <= k < |plan.commands| ==> 0 <= plan.commands[k] <= 2)
            && (forall k :: 0 <= k < |plan.commands| - 1 ==> plan.commands[k] == COMMAND_CONTINUE)
            && (plan.link.isPadding <==> !EndsTerminal(plan.commands))
            && (plan.link.direct <==> EndsDirect(plan.commands))
            && (plan.link.isPadding || plan.link.direct ==> |plan.commands| == |pieces| - i)
  {
    PlanShape(f, complete, pieces, i, link);
    PlanEnd(f, complete, pieces, i, link);
  }

  lemma {:induction false} PlanEnd(f: Filter, complete: bool, pieces: seq<Slot>, i: nat, link: WriterLink)
    requires Consistent(f) && i <= |pieces|
    requires link.isPadding ==> !link.direct
    requires !link.isPadding ==> i < |pieces| && link.direct == f.xtls
    ensures var plan := PlanFrom(f, complete, pieces, i, link);
            && (plan.link.isPadding <==> !EndsTerminal(plan.commands))
            && (plan.link.direct <==> EndsDirect(plan.commands))
            && (plan.link.isPadding || plan.link.direct ==> |plan.commands| == |pieces| - i)
    decreases |pieces| - i
  {
    if i < |pieces| {
      if i == |pieces| - 1 {
      } else if StartsData(f, complete, pieces[i]) {
        var next := WriterLink(false, link.direct || f.xtls);
        PlanEnd(f, complete, pieces, i + 1, next);
        EndsLater(COMMAND_CONTINUE, PlanFrom(f, complete, pieces, i + 1, next).commands);
      } else if !EndsEarly(f) {
        PlanEnd(f, complete, pieces, i + 1, link);
        EndsLater(COMMAND_CONTINUE, PlanFrom(f, complete, pieces, i + 1, link).commands);
      }
    }
  }

  lemma EndsLater(first: Byte, rest: seq<Byte>)
    requires rest != []
    ensures EndsTerminal([first] + rest) <==> EndsTerminal(rest)
    ensures EndsDirect([first] + rest) <==> EndsDirect(rest)
  {
  }

  // ---------- When padding ends, on the bytes

  predicate OpensDataRecord(b: Bytes) {
    |b| >= 6 && b[0] == 0x17 && b[1] == 0x03 && b[2] == 0x03
  }

  lemma SameStart(f: Filter, complete: bool, b: Slot)
    ensures StartsData(f, complete, b) <==> f.tls && complete && OpensDataRecord(b.Data())
  {
    if |b.Data()| >= 6 {
      assert b.Data()[..3] == [b.Data()[0], b.Data()[1], b.Data()[2]];
    }
  }

  /** Piece `k` is a data record's start, in a call of whole records on a TLS connection. */
  predicate DataPiece(f: Filter, complete: bool, pieces: seq<Slot>, k: nat) {
    k < |pieces| && f.tls && complete && OpensDataRecord(pieces[k].Data())
  }

  /** One of the pieces from `i` on is such a start. */
  predicate DataFrom(f: Filter, complete: bool, pieces: seq<Slot>, i: nat) {
    exists k :: i <= k < |pieces| && DataPiece(f, complete, pieces, k)
  }

  lemma DataUnfolds(f: Filter, complete: bool, pieces: seq<Slot>, i: nat)
    requires i < |pieces|
    ensures DataFrom(f, complete, pieces, i) <==> StartsData(f, complete, pieces[i]) || DataFrom(f, complete, pieces, i + 1)
    ensures DataPiece(f, complete, pieces, i) <==> StartsData(f, complete, pieces[i])
  {
    SameStart(f, complete, pieces[i]);
    if DataPiece(f, complete, pieces, i) {
      assert DataFrom(f, complete, pieces, i);
    }
  }

  /** Padding is over after the pieces from `i` on exactly if it was before, or one of them starts data, or there is one
      and the connection shows no TLS 1.2 with the filter's budget at its end. */
  lemma {:induction false} PaddingIsOver(f: Filter, complete: bool, pieces: seq<Slot>, i: nat, link: WriterLink)
    requires i <= |pieces|
    ensures PlanFrom(f, complete, pieces, i, link).link.isPadding <==>
              link.isPadding && !DataFrom(f, complete, pieces, i) && (i == |pieces| || f.tls12 || f.packets > 1)
    decreases |pieces| - i
  {
    if i < |pieces| {
      DataUnfolds(f, complete, pieces, i);
      if StartsData(f, complete, pieces[i]) {
        PaddingIsOver(f, complete, pieces, i + 1, WriterLink(false, link.direct || f.xtls));
      } else if !EndsEarly(f) {
        PaddingIsOver(f, complete, pieces, i + 1, link);
      }
    }
  }

  /** Which pieces are framed: all of them, but for one case. Without TLS 1.2 and with the budget at its end, framing stops
      at the first piece that does not start data. */
  lemma {:induction false} FramedPieces(f: Filter, complete: bool, pieces: seq<Slot>, i: nat, link: WriterLink)
    requires i <= |pieces|
    ensures var n := i + |PlanFrom(f, complete, pieces, i, link).commands|;
            && n <= |pieces|
            && (i < |pieces| ==> i < n)
            && (f.tls12 || f.packets > 1 ==> n == |pieces|)
            && (!f.tls12 && f.packets <= 1 ==>
                  && (forall k :: i <= k < n - 1 ==> DataPiece(f, complete, pieces, k))
                  && (n < |pieces| ==> !DataPiece(f, complete, pieces, n - 1)))
    decreases |pieces| - i
  {
    if i < |pieces| {
      DataUnfolds(f, complete, pieces, i);
      if StartsData(f, complete, pieces[i]) {
        FramedPieces(f, complete, pieces, i + 1, WriterLink(false, link.direct || f.xtls));
      } else if !EndsEarly(f) {
        FramedPieces(f, complete, pieces, i + 1, link);
      }
    }
  }

  /** The last command: Continue while padding goes on; otherwise Direct if XTLS is enabled and framing was not stopped, and
      End if it was or XTLS is not enabled. */
  predicate LastCommand(f: Filter, complete: bool, pieces: seq<Slot>, i: nat, commands: seq<Byte>, isPadding: bool) {
    var n := |commands|;
    && n > 0
    && var stopped := !f.tls12 && f.packets <= 1 && !DataPiece(f, complete, pieces, i + n - 1);
       commands[n - 1] == if isPadding then 0 else if f.xtls && !stopped then 2 else 1
  }

  lemma {:induction false} PlanLastCommand(f: Filter, complete: bool, pieces: seq<Slot>, i: nat, link: WriterLink)
    requires i < |pieces|
    ensures var plan := PlanFrom(f, complete, pieces, i, link);
            LastCommand(f, complete, pieces, i, plan.commands, plan.link.isPadding)
    decreases |pieces| - i
  {
    if i == |pieces| - 1 {
      OnlyCommand(f, complete, pieces, i, link);
    } else if StartsData(f, complete, pieces[i]) {
      var next := WriterLink(false, link.direct || f.xtls);
      PlanLastCommand(f, complete, pieces, i + 1, next);
      var rest := PlanFrom(f, complete, pieces, i + 1, next);
      LaterCommand(f, complete, pieces, i, COMMAND_CONTINUE, rest.commands, rest.link.isPadding);
    } else if EndsEarly(f) {
      OnlyCommand(f, complete, pieces, i, link);
    } else {
      PlanLastCommand(f, complete, pieces, i + 1, link);
      var rest := PlanFrom(f, complete, pieces, i + 1, link);
      LaterCommand(f, complete, pieces, i, COMMAND_CONTINUE, rest.commands, rest.link.isPadding);
    }
  }

  lemma OnlyCommand(f: Filter, complete: bool, pieces: seq<Slot>, i: nat, link: WriterLink)
    requires i < |pieces| && (i == |pieces| - 1 || (EndsEarly(f) && !StartsData(f, complete, pieces[i])))
    ensures var plan := PlanFrom(f, complete, pieces, i, link);
            LastCommand(f, complete, pieces, i, plan.commands, plan.link.isPadding)
  {
    SameStart(f, complete, pieces[i]);
  }

  lemma LaterCommand(f: Filter, complete: bool, pieces: seq<Slot>, i: nat, first: Byte, rest: seq<Byte>, isPadding: bool)
    requires LastCommand(f, complete, pieces, i + 1, rest, isPadding)
    ensures LastCommand(f, complete, pieces, i, [first] + rest, isPadding)
  {
    assert ([first] + rest)[|rest|] == rest[|rest| - 1];
  }

  /** How a call that frames ends padding, said on the bytes of its pieces and on the filter. */
  predicate EndsAsPromised(f: Filter, complete: bool, pieces: seq<Slot>, commands: seq<Byte>, isPadding: bool) {
    var n, budgetOver := |commands|, !f.tls12 && f.packets <= 1;
    // Which pieces are framed.
    && n <= |pieces| && (pieces != [] ==> n > 0)
    && (!budgetOver ==> n == |pieces|)
    && (budgetOver ==>
          && (forall k :: 0 <= k < n - 1 ==> DataPiece(f, complete, pieces, k))
          && (n < |pieces| ==> !DataPiece(f, complete, pieces, n - 1)))
    // When padding is over.
    && (!isPadding <==> pieces != [] && (budgetOver || DataFrom(f, complete, pieces, 0)))
    // The command of each frame.
    && (forall k :: 0 <= k < n - 1 ==> commands[k] == 0)
    && (n > 0 ==> LastCommand(f, complete, pieces, 0, commands, isPadding))
  }

  /** Which frames are padded long: those that start data; and on a TLS connection those before any such frame. */
  predicate PaddedLong(f: Filter, complete: bool, pieces: seq<Slot>, k: nat) {
    DataPiece(f, complete, pieces, k) || (f.tls && NoDataBefore(f, complete, pieces, k))
  }

  predicate NoDataBefore(f: Filter, complete: bool, pieces: seq<Slot>, k: nat) {
    forall j :: 0 <= j < k ==> !DataPiece(f, complete, pieces, j)
  }

  ghost predicate PaddedAsPromised(f: Filter, complete: bool, pieces: seq<Slot>, fs: seq<Frame>, seeds: Seeds) {
    forall k :: 0 <= k < |fs| ==> Drawn(fs[k], PaddedLong(f, complete, pieces, k), seeds)
  }

  lemma NoDataSnoc(f: Filter, complete: bool, pieces: seq<Slot>, k: nat)
    ensures NoDataBefore(f, complete, pieces, k + 1) <==> NoDataBefore(f, complete, pieces, k) && !DataPiece(f, complete, pieces, k)
  {
  }

  lemma PaddedStep(f: Filter, complete: bool, pieces: seq<Slot>, fs: seq<Frame>, seeds: Seeds, frame: Frame)
    requires PaddedAsPromised(f, complete, pieces, fs, seeds)
    requires Drawn(frame, PaddedLong(f, complete, pieces, |fs|), seeds)
    ensures PaddedAsPromised(f, complete, pieces, fs + [frame], seeds)
  {
  }

  lemma PlanKeepsPromise(f: Filter, complete: bool, pieces: seq<Slot>)
    ensures var plan := PlanFrom(f, complete, pieces, 0, WriterLink(true, false));
            EndsAsPromised(f, complete, pieces, plan.commands, plan.link.isPadding)
  {
    var link := WriterLink(true, false);
    PlanShape(f, complete, pieces, 0, link);
    PaddingIsOver(f, complete, pieces, 0, link);
    FramedPieces(f, complete, pieces, 0, link);
    if pieces != [] {
      PlanLastCommand(f, complete, pieces, 0, link);
    }
  }
}
