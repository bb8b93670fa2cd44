/** Writing the backup reserve and the operating mode. The local gateway's
    endpoint overwrites both, so a caller who supplies one has the other read
    back and sent along; the other backends must get only what was supplied. */
module Operations {
  import opened Common
  import Connect

  /** The operation as a backend reports it; a missing mode is the empty string. */
  datatype Operation = Operation(reserve: Option<real>, mode: string)

  /** The body of a write: the fields it carries. */
  datatype Payload = Payload(reserve: Option<real>, mode: Option<string>)

  datatype Error = ReserveOutOfRange | BackfillFailed | SetOperationFailed

  predicate OutOfRange(level: Option<real>) { level.Some? && (level.value < 0.0 || level.value > 100.0) }

  predicate Given(mode: Option<string>) { mode.Some? && mode.value != "" }

  /** Exactly one field was supplied, to a backend that overwrites both. */
  predicate NeedsReadBack(connection: Connect.ConnectionMode, level: Option<real>, mode: Option<string>) {
    connection == Connect.ModeLocal && (level.Some? != Given(mode))
  }

  /** `read` is what a forced read gives, absent when it fails. */
  method BackfillLocalOperation(connection: Connect.ConnectionMode, level: Option<real>, mode: Option<string>,
                                read: Option<Operation>)
    returns (r: Result<(Option<real>, Option<string>), Error>)
    ensures r.Err? <==> NeedsReadBack(connection, level, mode) && read.None?
    ensures r.Err? ==> r.error == BackfillFailed
    ensures r.Ok? && !NeedsReadBack(connection, level, mode) ==> r.value == (level, mode)
    ensures r.Ok? && NeedsReadBack(connection, level, mode) ==>
      r.value == if level.Some? then (level, Some(read.value.mode)) else (read.value.reserve, mode)
  {
    var haveLevel, haveMode := level.Some?, mode.Some? && mode.value != "";
    if connection != Connect.ModeLocal || haveLevel == haveMode {
      return Ok((level, mode));
    }
    if read.None? {
      return Err(BackfillFailed);
    }
    var level', mode' := level, mode;
    if !haveLevel {
      if read.value.reserve.Some? {
        level' := read.value.reserve;
      }
    }
    if !haveMode {
      mode' := Some(read.value.mode);
    }
    return Ok((level', mode'));
  }

  /** `sent` is the payload that went out, if any; `reply` says whether the backend
      answered the post with a value. */
  method SetOperation(connection: Connect.ConnectionMode, level: Option<real>, mode: Option<string>,
                      read: Option<Operation>, reply: bool)
    returns (sent: Option<Payload>, res: Result<Operation, Error>)
    ensures sent == Sent(connection, level, mode, read)
    ensures res.Ok? <==> sent.Some? && reply
    ensures res.Ok? && sent.value.reserve.Some? ==> res.value.reserve == sent.value.reserve
    ensures res.Ok? && sent.value.mode.Some? ==> Some(res.value.mode) == sent.value.mode
    ensures res.Err? ==>
      res.error == if OutOfRange(level) then ReserveOutOfRange else if sent.None? then BackfillFailed
        else SetOperationFailed
  {
    if level.Some? && (level.value < 0.0 || level.value > 100.0) {
      return None, Err(ReserveOutOfRange);
    }
    var filled := BackfillLocalOperation(connection, level, mode, read);
    if filled.Err? {
      return None, Err(filled.error);
    }
    var (level', mode') := filled.value;
    var payload := Payload(None, None);
    if level'.Some? {
      payload := payload.(reserve := level');
    }
    if mode'.Some? && mode'.value != "" {
      payload := payload.(mode := mode');
    }
    if !reply {
      return Some(payload), Err(SetOperationFailed);
    }
    return Some(payload), Ok(Operation(level', if mode'.Some? then mode'.value else ""));
  }

  /** What goes out: the supplied fields, with the field read back in the place of
      a missing one where that is needed. */
  function Sent(connection: Connect.ConnectionMode, level: Option<real>, mode: Option<string>, read: Option<Operation>)
    : (sent: Option<Payload>)
  {
    var supplied := Payload(level, if Given(mode) then mode else None);
    if OutOfRange(level) then None
    else if !NeedsReadBack(connection, level, mode) then Some(supplied)
    else if read.None? then None
    else if level.Some? then Some(supplied.(mode := if read.value.mode != "" then Some(read.value.mode) else None))
    else Some(supplied.(reserve := read.value.reserve))
  }

  // ------------------------------------------------------------- the gateway

  /** The gateway's own state; a mode is never empty. */
  datatype Gateway = Gateway(reserve: real, mode: string)

  /** A write that the gateway accepts replaces both fields: one that the payload
      lacks falls back to the gateway's default. */
  function Overwrite(defaults: Gateway, payload: Payload): (g: Gateway) {
    Gateway(if payload.reserve.Some? then payload.reserve.value else defaults.reserve,
            if payload.mode.Some? then payload.mode.value else defaults.mode)
  }

  /** The gateway after the call; one that refuses the write stays as it was. */
  function After(g: Gateway, defaults: Gateway, sent: Option<Payload>, accepted: bool): (g': Gateway) {
    if sent.Some? && accepted then Overwrite(defaults, sent.value) else g
  }

  /** A read back that reports nothing wrong, though it may lack a field. */
  predicate Truthful(op: Operation, g: Gateway) {
    (op.reserve.Some? ==> op.reserve.value == g.reserve) && (op.mode != "" ==> op.mode == g.mode)
  }

  /** Setting the reserve keeps the mode, whatever the gateway's defaults are,
      exactly when the read back had the mode in it. */
  lemma SetReserveKeepsMode(g: Gateway, level: real, op: Operation)
    requires Truthful(op, g) && 0.0 <= level <= 100.0
    ensures var sent := Sent(Connect.ModeLocal, Some(level), None, Some(op));
            (forall defaults :: After(g, defaults, sent, true) == g.(reserve := level)) <==> op.mode != ""
  {
    var sent := Sent(Connect.ModeLocal, Some(level), None, Some(op));
    if op.mode == "" {
      assert After(g, Gateway(0.0, g.mode + "!"), sent, true).mode == g.mode + "!" != g.mode;
    }
  }

  /** Setting the mode keeps the reserve exactly when the read back had it. */
  lemma SetModeKeepsReserve(g: Gateway, mode: string, op: Operation)
    requires Truthful(op, g) && mode != ""
    ensures var sent := Sent(Connect.ModeLocal, None, Some(mode), Some(op));
            (forall defaults :: After(g, defaults, sent, true) == g.(mode := mode)) <==> op.reserve.Some?
  {
    var sent := Sent(Connect.ModeLocal, None, Some(mode), Some(op));
    if op.reserve.None? {
      assert After(g, Gateway(g.reserve + 1.0, ""), sent, true).reserve == g.reserve + 1.0;
    }
  }

  /** Whatever happens on the way, a write of one field never changes the other
      one when the forced read returns both: not when the read fails, not when the
      level is out of range, not when the gateway refuses. */
  lemma OneFieldWriteIsLocal(g: Gateway, defaults: Gateway, level: Option<real>, mode: Option<string>, readable: bool,
                             accepted: bool)
    requires level.Some? != Given(mode) && g.mode != ""
    ensures var read := if readable then Some(Operation(Some(g.reserve), g.mode)) else None;
            var sent := Sent(Connect.ModeLocal, level, mode, read);
            var g' := After(g, defaults, sent, accepted);
            && (sent.Some? <==> readable && !OutOfRange(level))
            && g' == if sent.Some? && accepted
                     then Gateway(if level.Some? then level.value else g.reserve,
                                  if Given(mode) then mode.value else g.mode)
                     else g
  {
  }

  /** With both fields supplied the gateway ends up with exactly these two, whatever it
      was set to, whatever its defaults are and whatever a read would have given; a
      level out of range leaves it alone. */
  lemma BothFieldsReachGateway(g: Gateway, defaults: Gateway, level: real, mode: string, read: Option<Operation>)
    requires mode != ""
    ensures var g' := After(g, defaults, Sent(Connect.ModeLocal, Some(level), Some(mode), read), true);
            g' == if 0.0 <= level <= 100.0 then Gateway(level, mode) else g
  {
  }

  /** A backend that takes the fields as separate commands gets exactly the
      supplied ones, and its state is never read for the purpose. */
  lemma OtherBackendsGetOnlyWhatWasSupplied(connection: Connect.ConnectionMode, level: Option<real>,
                                            mode: Option<string>,
                                            read: Option<Operation>, read': Option<Operation>)
    requires connection != Connect.ModeLocal && !OutOfRange(level)
    ensures Sent(connection, level, mode, read) == Sent(connection, level, mode, read')
    ensures var sent := Sent(connection, level, mode, read);
            sent.Some? && sent.value.reserve == level && (sent.value.mode.Some? <==> Given(mode))
            && (Given(mode) ==> sent.value.mode == mode)
  {
  }

  /** With neither field supplied an empty payload goes out, and an overwriting
      gateway falls back to its defaults altogether. */
  lemma EmptyWriteResetsGateway(g: Gateway, defaults: Gateway, read: Option<Operation>)
    ensures After(g, defaults, Sent(Connect.ModeLocal, None, Some(""), read), true) == defaults
    ensures After(g, defaults, Sent(Connect.ModeLocal, None, None, read), true) == defaults
  {
  }
}
