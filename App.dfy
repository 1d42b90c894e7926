/**
  The PasswordGenerator window object, reduced to the state its logic
  updates: the history list and the lines of the history list box.
 */
module App {
  import opened Charset
  import opened Strength
  import opened Generation
  import opened History

  datatype Option<T> = None | Some(value: T)

  class PasswordGenerator {
    /** The history, oldest entry first. */
    var history: seq<Entry>
    /** The lines of the history list box, top line first. */
    var listing: seq<string>

    /** `stored` is what load_history read: None when the history file
        does not exist. The window is then built and the list box filled. */
    constructor (stored: Option<seq<Entry>>)
      ensures history == (if stored.Some? then stored.value else [])
      ensures Displays(listing, history)
    {
      history := if stored.Some? then stored.value else [];
      listing := [];
      new;
      UpdateHistoryDisplay();
    }

    /** Clears the list box and inserts one line per entry of
        `reversed(history[-10:])`. */
    method UpdateHistoryDisplay()
      modifies this`listing
      ensures Displays(listing, history)
      ensures history == old(history)
    {
      listing := [];
      var tail := if |history| <= ViewSize then history else history[|history| - ViewSize..];
      assert tail == LastEntries(history);
      var i := |tail|;
      while i > 0
        invariant 0 <= i <= |tail|
        invariant listing == Render(Reverse(tail[i..]))
      {
        i := i - 1;
        assert tail[i..][1..] == tail[i + 1..];
        RenderAppend(Reverse(tail[i + 1..]), tail[i]);
        listing := listing + [Line(tail[i])];
      }
      assert tail[0..] == tail;
    }

    /** Builds the alphabet from the four check boxes, gives up when it is
        empty, and otherwise draws `length` characters, rates them, records
        the entry stamped `timestamp` and refreshes the list box. The result
        is the password shown, None when nothing was generated. */
    method GeneratePassword(length: int, sel: Selection, timestamp: string)
      returns (generated: Option<string>)
      modifies this`history, this`listing
      ensures Alphabet(sel) == [] ==>
        generated == None && history == old(history) && listing == old(listing)
      ensures Alphabet(sel) != [] ==>
        generated.Some? &&
        |generated.value| == Requested(length) &&
        DrawnFrom(generated.value, Alphabet(sel)) &&
        history == old(history) + [Entry(generated.value, timestamp, CheckStrength(generated.value))] &&
        Displays(listing, history) &&
        listing[0] == Line(history[|history| - 1])
    {
      var chars := CollectChars(sel);

      if chars == [] {
        return None;
      }

      var password := DrawPassword(chars, length);
      var strength := CheckStrength(password);
      history := history + [Entry(password, timestamp, strength)];
      UpdateHistoryDisplay();
      RecentShape(history);
      return Some(password);
    }
  }
}
