/** The event cursors of the in-memory Runmill gateway: a run's name and an offset, as text. */
module RunCursor {
  import opened Prelude
  import Decimal
  import Text

  function Prefix(run: string): string {
    "v1:" + run + ":"
  }

  function CursorFor(run: string, offset: nat): string {
    Prefix(run) + Decimal.ToText(offset)
  }

  datatype CursorError = OtherRunOrSchema | MalformedPosition | AheadOfStream

  function ParseCursor(cursor: string, run: string, count: nat): Result<nat, CursorError> {
    if !(Prefix(run) <= cursor) then Err(OtherRunOrSchema)
    else
      match Decimal.ParseUsize(cursor[|Prefix(run)|..])
      case None => Err(MalformedPosition)
      case Some(offset) => if offset > count then Err(AheadOfStream) else Ok(offset)
  }

  /**
   A cursor reads back as its offset, exactly for the run it was made for and a stream at least
   that long. Run names all have the same length.
   */
  lemma CursorRoundTrip(run: string, offset: nat, run': string, count: nat)
    requires |run| == |run'| && offset <= Decimal.USIZE_MAX
    ensures ParseCursor(CursorFor(run, offset), run', count) ==
            if run != run' then Err(OtherRunOrSchema)
            else if offset > count then Err(AheadOfStream)
            else Ok(offset)
  {
    var cursor := CursorFor(run, offset);
    Decimal.ParseInvertsText(offset);
    assert cursor[|Prefix(run)|..] == Decimal.ToText(offset);
    assert Prefix(run) == cursor[..|Prefix(run)|];
    assert run == cursor[3..3 + |run|];
    if Prefix(run') <= cursor {
      assert run' == cursor[3..3 + |run|];
    }
  }

  /** A cursor is three pieces between colons: the schema, the run and the offset. */
  lemma CursorHasThreePieces(run: string, offset: nat)
    requires ':' !in run
    ensures Text.Split(CursorFor(run, offset), ':') == ["v1", run, Decimal.ToText(offset)]
  {
    var digits := Decimal.ToText(offset);
    assert CursorFor(run, offset) == "v1" + [':'] + (run + [':'] + digits);
    Text.SplitFirst("v1", run + [':'] + digits, ':');
    Text.SplitFirst(run, digits, ':');
    assert ':' !in digits;
    assert Text.Split(digits, ':') == [digits];
  }
}
