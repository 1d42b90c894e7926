/**
  History entries and the view of the history that the list box shows:
  the last ten entries, most recent first.
 */
module History {
  import opened Strength

  /** One record of the history list; the timestamp is the formatted clock
      reading, taken as given. */
  datatype Entry = Entry(password: string, timestamp: string, strength: Level)

  /** The number of entries the list box shows. */
  const ViewSize: nat := 10

  function Min(a: nat, b: nat): nat { if a <= b then a else b }

  function Reverse<T>(s: seq<T>): (r: seq<T>)
    ensures |r| == |s|
    ensures forall i | 0 <= i < |s| :: r[i] == s[|s| - 1 - i]
  {
    if s == [] then [] else Reverse(s[1..]) + [s[0]]
  }

  /** `log[-10:]`: the whole log when it is shorter than ten entries. */
  function LastEntries(log: seq<Entry>): (tail: seq<Entry>)
    ensures |tail| == Min(ViewSize, |log|)
    ensures forall i | 0 <= i < |tail| :: tail[i] == log[|log| - |tail| + i]
  {
    if |log| <= ViewSize then log else log[|log| - ViewSize..]
  }

  /** `reversed(log[-10:])`: the entries the list box shows, in order. */
  function Recent(log: seq<Entry>): (view: seq<Entry>)
  {
    Reverse(LastEntries(log))
  }

  /** The view holds min(10, k) entries of a log of k, the i-th being the
      i-th most recent. */
  lemma RecentShape(log: seq<Entry>)
    ensures |Recent(log)| == Min(ViewSize, |log|)
    ensures forall i | 0 <= i < |Recent(log)| :: Recent(log)[i] == log[|log| - 1 - i]
  {
  }

  /** How a view of the last entries of a log shifts when the log grows by
      one entry, stated for any two sequences of the right shape. */
  lemma ViewShift<T>(log: seq<T>, e: T, v: seq<T>, w: seq<T>)
    requires |v| == Min(ViewSize, |log|)
    requires forall i | 0 <= i < |v| :: v[i] == log[|log| - 1 - i]
    requires |w| == Min(ViewSize, |log| + 1)
    requires forall i | 0 <= i < |w| :: w[i] == (log + [e])[|log| - i]
    ensures w == [e] + v[..Min(ViewSize - 1, |log|)]
  {
    var u := [e] + v[..Min(ViewSize - 1, |log|)];
    assert |w| == |u|;
    forall i | 0 <= i < |w|
      ensures w[i] == u[i]
    {
      if i > 0 {
        assert u[i] == v[i - 1] == log[|log| - i];
      }
    }
  }

  /** After an append the new entry is shown first, followed by what was
      shown before, with the oldest shown entry dropped once the view is full. */
  lemma RecentAfterAppend(log: seq<Entry>, e: Entry)
    ensures Recent(log + [e]) == [e] + Recent(log)[..Min(ViewSize - 1, |log|)]
  {
    RecentShape(log);
    RecentShape(log + [e]);
    ViewShift(log, e, Recent(log), Recent(log + [e]));
  }

  /** Entries older than the last ten do not affect the view. */
  lemma RecentIgnoresOlder(older: seq<Entry>, log: seq<Entry>)
    requires |log| >= ViewSize
    ensures Recent(older + log) == Recent(log)
  {
    var full := older + log;
    RecentShape(full);
    RecentShape(log);
    forall i | 0 <= i < ViewSize
      ensures Recent(full)[i] == Recent(log)[i]
    {
      assert full[|full| - 1 - i] == log[|log| - 1 - i];
    }
  }

  /** One line of the list box: `timestamp | password | strength`. */
  function Line(e: Entry): string
  {
    e.timestamp + " | " + e.password + " | " + Label(e.strength)
  }

  /** The list box lines for `view`: line i is the line of entry i. */
  function Render(view: seq<Entry>): (lines: seq<string>)
    ensures |lines| == |view|
    ensures forall i | 0 <= i < |view| :: lines[i] == Line(view[i])
  {
    if view == [] then [] else [Line(view[0])] + Render(view[1..])
  }

  lemma {:induction false} RenderAppend(view: seq<Entry>, e: Entry)
    ensures Render(view + [e]) == Render(view) + [Line(e)]
  {
    if view != [] {
      assert (view + [e])[1..] == view[1..] + [e];
      RenderAppend(view[1..], e);
    }
  }

  /** The list box shows exactly the lines of `log`'s view. */
  predicate Displays(lines: seq<string>, log: seq<Entry>)
  {
    lines == Render(Recent(log))
  }
}
