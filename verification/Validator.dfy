// Structural validation of operations before they reach the ledger.
module Validator {
  import opened Prelude
  import opened Drawing
  import opened Replay

  const MAX_OPERATION_PAYLOAD_BYTES := 100_000
  const MAX_RESTORE_PAYLOAD_BYTES := 5_000_000
  const MAX_STROKE_POINTS := 4_000
  const MAX_RESTORE_OBJECTS := 20_000

  datatype Error =
    | InvalidOperation
    | InvalidPayload
    | TooLarge
    | Stale(currentVersion: int, clientVersion: int)
    | ReadOnly
    | ServerError // an exception the service does not handle

  // The serialized size of a payload. Its value is not modelled, only that it is a function of the payload.
  type Measure = Operation -> nat

  predicate IsHexDigit(c: char) {
    '0' <= c <= '9' || 'a' <= c <= 'f' || 'A' <= c <= 'F'
  }

  predicate IsHexColor(c: string) {
    |c| == 7 && c[0] == '#' && forall i :: 1 <= i < 7 ==> IsHexDigit(c[i])
  }

  // Python's `$` also matches before one trailing newline.
  predicate MatchesServerColor(c: string) {
    IsHexColor(c) || (|c| == 8 && c[7] == '\n' && IsHexColor(c[..7]))
  }

  function CheckStroke(s: Stroke): Option<Error> {
    if s.id == "" then Some(InvalidPayload)
    else if |s.points| < 2 then Some(InvalidPayload)
    else if |s.points| > MAX_STROKE_POINTS then Some(TooLarge)
    else if !MatchesServerColor(s.style.color) then Some(InvalidPayload)
    else if !(1.0 <= s.style.width <= 64.0) then Some(InvalidPayload)
    else if !(0.0 <= s.style.opacity <= 1.0) then Some(InvalidPayload)
    else None
  }

  // The first complaint about a list of objects, in list order.
  function CheckStrokes(objects: seq<Stroke>): Option<Error> {
    if objects == [] then None
    else if CheckStroke(objects[0]).Some? then CheckStroke(objects[0])
    else CheckStrokes(objects[1..])
  }

  function CheckPayload(op: Operation): Option<Error> {
    match op
    case CreateStroke(s) => CheckStroke(s)
    case DeleteObject(id) => if id == "" then Some(InvalidPayload) else None
    case ClearCanvas => None
    case MoveObject(id, _, _) => if id == "" then Some(InvalidPayload) else None
    case ResizeObject(id, _, sx, sy) =>
      if id == "" then Some(InvalidPayload)
      else if !(0.001 <= sx <= 1000.0) || !(0.001 <= sy <= 1000.0) then Some(InvalidPayload)
      else None
    case RestoreVersion(target, objects) =>
      if target < 0 then Some(InvalidPayload)
      else if |objects| > MAX_RESTORE_OBJECTS then Some(TooLarge)
      else CheckStrokes(objects)
  }

  function PayloadCap(op: Operation): nat {
    if op.RestoreVersion? then MAX_RESTORE_PAYLOAD_BYTES else MAX_OPERATION_PAYLOAD_BYTES
  }

  predicate GoodStroke(s: Stroke) {
    CheckStroke(s).None?
  }

  // ---- what is let through, and with what complaint the rest is refused ----

  predicate InHex(c: char) {
    c in "0123456789" || c in "abcdef" || c in "ABCDEF"
  }

  lemma HexDigits(c: char)
    ensures IsHexDigit(c) <==> InHex(c)
  {
    InTen(c);
    InSix(c);
  }

  lemma InTen(c: char)
    ensures c in "0123456789" <==> '0' <= c <= '9'
  {
    if '0' <= c <= '9' {
      assert "0123456789"[c as int - 48] == c;
    }
  }

  lemma InSix(c: char)
    ensures c in "abcdef" <==> 'a' <= c <= 'f'
    ensures c in "ABCDEF" <==> 'A' <= c <= 'F'
  {
    if 'a' <= c <= 'f' {
      assert "abcdef"[c as int - 97] == c;
    }
    if 'A' <= c <= 'F' {
      assert "ABCDEF"[c as int - 65] == c;
    }
  }

  // `#` and six hex digits, with at most a newline after them.
  ghost predicate LooksLikeColor(c: string) {
    exists six: string :: |six| == 6 && (forall d :: d in six ==> InHex(d)) && (c == "#" + six || c == "#" + six + "\n")
  }

  lemma ServerColorIff(c: string)
    ensures MatchesServerColor(c) <==> LooksLikeColor(c)
  {
    if MatchesServerColor(c) {
      var six := c[1..7];
      assert c == "#" + six || c == "#" + six + "\n";
      forall d | d in six ensures InHex(d) {
        HexDigits(d);
      }
    }
    if LooksLikeColor(c) {
      var six: string :| |six| == 6 && (forall d :: d in six ==> InHex(d)) && (c == "#" + six || c == "#" + six + "\n");
      forall i | 1 <= i < 7 ensures IsHexDigit(c[i]) {
        assert c[i] == six[i - 1] && six[i - 1] in six;
        HexDigits(c[i]);
      }
    }
  }

  // A stroke has an id, 2 to 4000 points, a color, a width in 1..64 and an opacity in 0..1. Too many
  // points are too large, everything else is an invalid payload.
  lemma StrokePassesIff(s: Stroke)
    ensures CheckStroke(s).None? <==>
      && |s.id| > 0 && 2 <= |s.points| <= 4000 && LooksLikeColor(s.style.color)
      && 1.0 <= s.style.width <= 64.0 && 0.0 <= s.style.opacity <= 1.0
    ensures CheckStroke(s) == Some(TooLarge) <==> |s.id| > 0 && |s.points| > 4000
    ensures CheckStroke(s).Some? ==> CheckStroke(s).value in {TooLarge, InvalidPayload}
  {
    ServerColorIff(s.style.color);
  }

  // The other payloads name their object, scale by 0.001 to 1000, or restore at most 20000 such strokes
  // from a sequence that can exist.
  lemma PayloadPassesIff(op: Operation)
    ensures CheckPayload(op).None? <==>
      match op
      case CreateStroke(s) => GoodStroke(s)
      case DeleteObject(id) => |id| > 0
      case ClearCanvas => true
      case MoveObject(id, _, _) => |id| > 0
      case ResizeObject(id, _, sx, sy) => |id| > 0 && 0.001 <= sx <= 1000.0 && 0.001 <= sy <= 1000.0
      case RestoreVersion(target, objects) => target >= 0 && |objects| <= 20000 && forall s :: s in objects ==> GoodStroke(s)
    ensures PayloadCap(op) == if op.RestoreVersion? then 5000000 else 100000
  {
    if op.RestoreVersion? {
      CheckStrokesIff(op.objects);
    }
  }

  ghost predicate GoodObjects(st: State) {
    forall id :: id in st.objects ==> GoodStroke(st.objects[id])
  }

  lemma {:induction false} CheckStrokesIff(objects: seq<Stroke>)
    ensures CheckStrokes(objects).None? <==> forall s :: s in objects ==> GoodStroke(s)
  {
    if objects != [] {
      CheckStrokesIff(objects[1..]);
      assert objects == [objects[0]] + objects[1..];
      assert objects[0] in objects;
      assert forall s :: s in objects ==> s == objects[0] || s in objects[1..];
    }
  }

  lemma ApplyKeepsGood(st: State, op: Operation)
    requires GoodObjects(st) && CheckPayload(op).None?
    ensures GoodObjects(Apply(st, op))
  {
    match op
    case CreateStroke(s) =>
    case DeleteObject(id) =>
    case ClearCanvas =>
    case MoveObject(id, dx, dy) =>
    case ResizeObject(id, anchor, sx, sy) =>
    case RestoreVersion(_, objects) =>
      CheckStrokesIff(objects);
      FileAllLooksUp(objects);
  }

  // Moving, resizing and restoring validated objects never yields one the validator refuses.
  lemma {:induction false} ReplayKeepsGood(ops: seq<Operation>)
    requires forall i :: 0 <= i < |ops| ==> CheckPayload(ops[i]).None?
    ensures GoodObjects(Reconstruct(ops))
  {
    if ops != [] {
      ReplayKeepsGood(ops[..|ops| - 1]);
      ApplyKeepsGood(Reconstruct(ops[..|ops| - 1]), ops[|ops| - 1]);
    }
  }
}
