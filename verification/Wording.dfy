/**
 The words that lines are read by, written out: level names and labels. Nothing
 here is taken from the emitters; the laws about lines are stated with these.
 */
module Wording {
  import opened Bytes
  import opened Events

  /** A level by its name, as in a `loglevel` field. */
  function Name(l: Level): (s: string)
    ensures IsAscii(s)
  {
    match l
    case Trace => "trace"
    case Debug => "debug"
    case Info => "info"
    case Warn => "warn"
    case Error => "error"
    case Fatal => "fatal"
    case Panic => "panic"
    case NoLevel => "nolevel"
    case Disabled => "disabled"
  }

  /** The level of an event by its name; there is no event at the disabled level. */
  function EventName(l: Level): (s: string)
    ensures IsAscii(s)
  {
    if l == Disabled then "info" else Name(l)
  }

  /** The level of an event by its console label. */
  function Label(l: Level): (s: string)
    ensures IsAscii(s) && |s| == 3
  {
    match l
    case Trace => "TRC"
    case Debug => "DBG"
    case Info => "INF"
    case Warn => "WRN"
    case Error => "ERR"
    case Fatal => "FTL"
    case Panic => "PNC"
    case NoLevel => "---"
    case Disabled => "INF"
  }

  lemma NameIsSpelt(l: Level)
    ensures LevelText(l) == Ascii(Name(l)) && LevelText(Slot(l)) == Ascii(EventName(l))
  {
  }

  lemma LabelIsSpelt(l: Level)
    ensures LevelLabel(Slot(l)) == Ascii(Label(l))
  {
  }

  /** Different slots have different names and labels. */
  lemma WordsDiffer(l: Level, m: Level)
    requires Slot(l) != Slot(m)
    ensures Ascii(EventName(l)) != Ascii(EventName(m)) && Ascii(Label(l)) != Ascii(Label(m))
  {
    assert Ascii(Label(l))[0] != Ascii(Label(m))[0];
    assert |EventName(l)| == |EventName(m)| ==> Ascii(EventName(l))[0] != Ascii(EventName(m))[0];
  }
}
