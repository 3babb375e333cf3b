/**
 * The list of recently visited clubs kept on the device: loading it from
 * the stored value, putting a club in front, and removing one. Storage is
 * abstracted: the stored value is an input, and whether a write succeeds
 * is a parameter.
 */
module RecentClubs {
  import opened Text

  /** The most clubs the list keeps. */
  const MaxRecentClubs := 6

  /** One element of a stored array: a string or any other value. */
  datatype StoredItem = StringItem(name: string) | OtherItem

  /**
   * The stored value as read and parsed: nothing stored (or an empty
   * string), text that does not parse, a parsed value that is not an
   * array, or an array.
   */
  datatype StoredValue = Nothing | Unparsable | NotAnArray | AnArray(items: seq<StoredItem>)

  /** The string elements of a stored array, in their order. */
  function Strings(items: seq<StoredItem>): (r: seq<string>)
    ensures |r| <= |items|
    ensures forall x :: x in r <==> StringItem(x) in items
  {
    if |items| == 0 then []
    else
      var rest := Strings(items[1..]);
      assert forall x :: StringItem(x) in items <==> items[0] == StringItem(x) || StringItem(x) in items[1..];
      if items[0].StringItem? then [items[0].name] + rest else rest
  }

  /** The stored list: its string elements, or nothing when there is no usable array. */
  function LoadRecentClubs(stored: StoredValue): (clubs: seq<string>)
    ensures !stored.AnArray? ==> clubs == []
    ensures stored.AnArray? ==> forall x :: x in clubs <==> StringItem(x) in stored.items
  {
    if stored.AnArray? then Strings(stored.items) else []
  }

  /** Filtering a concatenation filters each part, keeping the parts in order. */
  lemma {:induction false} StringsAppend(a: seq<StoredItem>, b: seq<StoredItem>)
    ensures Strings(a + b) == Strings(a) + Strings(b)
  {
    if |a| > 0 {
      var ab := a + b;
      assert ab[0] == a[0] && ab[1..] == a[1..] + b;
      StringsAppend(a[1..], b);
      var head := if a[0].StringItem? then [a[0].name] else [];
      assert Strings(ab) == head + Strings(a[1..] + b);
      assert Strings(a) == head + Strings(a[1..]);
    } else {
      assert a + b == b;
    }
  }

  /**
   * Loading keeps every string element of the stored array, in order and
   * with repeats, and drops every other element: loading is determined by
   * these three equations.
   */
  lemma LoadKeepsStringsInOrder(a: seq<StoredItem>, b: seq<StoredItem>, name: string)
    ensures LoadRecentClubs(AnArray(a + b)) == LoadRecentClubs(AnArray(a)) + LoadRecentClubs(AnArray(b))
    ensures LoadRecentClubs(AnArray([StringItem(name)])) == [name]
    ensures LoadRecentClubs(AnArray([OtherItem])) == []
  {
    StringsAppend(a, b);
  }

  /** How a list of clubs is stored. */
  function StoreRecentClubs(clubs: seq<string>): (stored: StoredValue)
    ensures stored.AnArray? && |stored.items| == |clubs|
  {
    AnArray(seq(|clubs|, i requires 0 <= i < |clubs| => StringItem(clubs[i])))
  }

  /** Loading what was stored gives the list back. */
  lemma {:induction false} LoadAfterStore(clubs: seq<string>)
    ensures LoadRecentClubs(StoreRecentClubs(clubs)) == clubs
  {
    if |clubs| > 0 {
      var items := StoreRecentClubs(clubs).items;
      assert items[1..] == StoreRecentClubs(clubs[1..]).items;
      LoadAfterStore(clubs[1..]);
      assert [clubs[0]] + clubs[1..] == clubs;
    }
  }

  /** `clubs` without the entries equal to `club`, the others in their order. */
  function Without(clubs: seq<string>, club: string): (r: seq<string>)
    ensures |r| <= |clubs|
    ensures club !in r
    ensures forall x :: x in r <==> x in clubs && x != club
  {
    if |clubs| == 0 then []
    else
      var rest := Without(clubs[1..], club);
      assert forall x :: x in clubs <==> x == clubs[0] || x in clubs[1..];
      if clubs[0] != club then [clubs[0]] + rest else rest
  }

  /** Removing entries from a concatenation removes them from each part. */
  lemma {:induction false} WithoutAppend(a: seq<string>, b: seq<string>, club: string)
    ensures Without(a + b, club) == Without(a, club) + Without(b, club)
  {
    if |a| > 0 {
      assert (a + b)[1..] == a[1..] + b;
      WithoutAppend(a[1..], b, club);
    } else {
      assert a + b == b;
    }
  }

  /** Removing entries that are not there changes nothing. */
  lemma {:induction false} WithoutAbsent(clubs: seq<string>, club: string)
    requires club !in clubs
    ensures Without(clubs, club) == clubs
  {
    if |clubs| > 0 {
      WithoutAbsent(clubs[1..], club);
      assert [clubs[0]] + clubs[1..] == clubs;
    }
  }

  /** The first `n` entries (all of them when there are fewer). */
  function Take(clubs: seq<string>, n: nat): (r: seq<string>)
    ensures |r| == if |clubs| < n then |clubs| else n
    ensures r == clubs[..|r|]
  {
    if |clubs| <= n then clubs else clubs[..n]
  }

  /**
   * The list once `club` is visited: the club in front, followed by the
   * other clubs in their order, the whole cut to `MaxRecentClubs`.
   */
  function PutFirst(previous: seq<string>, club: string): (next: seq<string>)
    ensures |next| >= 1 && next[0] == club
    ensures |next| <= MaxRecentClubs
    ensures next[1..] == Take(Without(previous, club), MaxRecentClubs - 1)
    ensures club !in next[1..]
  {
    var others := Without(previous, club);
    var next := Take([club] + others, MaxRecentClubs);
    assert next[1..] == Take(others, MaxRecentClubs - 1);
    next
  }

  /** Visiting the club that was visited last leaves the list as it is. */
  lemma PutFirstIsIdempotent(previous: seq<string>, club: string)
    ensures PutFirst(PutFirst(previous, club), club) == PutFirst(previous, club)
  {
    var next := PutFirst(previous, club);
    var tail := next[1..];
    assert next == [club] + tail;
    WithoutAppend([club], tail, club);
    WithoutAbsent(tail, club);
    assert Without(next, club) == tail;
  }

  /**
   * Records a visit to `topic`. A blank topic returns the stored list and
   * writes nothing; otherwise the normalised topic is put first, and the
   * new list is returned when `writeSucceeds`, the previous one when the
   * write fails.
   */
  function AddRecentClub(stored: StoredValue, topic: string, writeSucceeds: bool): (clubs: seq<string>)
    ensures TrimLower(topic) == "" || !writeSucceeds ==> clubs == LoadRecentClubs(stored)
    ensures TrimLower(topic) != "" && writeSucceeds ==>
              && 1 <= |clubs| <= MaxRecentClubs && clubs[0] == TrimLower(topic)
              && clubs[1..] == Take(Without(LoadRecentClubs(stored), TrimLower(topic)), MaxRecentClubs - 1)
  {
    var normalized := TrimLower(topic);
    var previous := LoadRecentClubs(stored);
    if normalized == "" then previous
    else if writeSucceeds then PutFirst(previous, normalized)
    else previous
  }

  /** In a successfully written list the visited club appears exactly once. */
  lemma AddedClubAppearsOnce(stored: StoredValue, topic: string)
    requires TrimLower(topic) != ""
    ensures var clubs := AddRecentClub(stored, topic, true);
            forall i :: 0 <= i < |clubs| ==> (clubs[i] == TrimLower(topic) <==> i == 0)
  {
    var clubs := AddRecentClub(stored, topic, true);
    forall i | 0 < i < |clubs|
      ensures clubs[i] != TrimLower(topic)
    {
      assert clubs[i] == clubs[1..][i - 1];
    }
  }

  /**
   * Records the removal of `topic`: every entry equal to the normalised
   * topic is dropped and the rest keep their order; when the write fails
   * the previous list is returned.
   */
  function RemoveRecentClub(stored: StoredValue, topic: string, writeSucceeds: bool): (clubs: seq<string>)
    ensures !writeSucceeds ==> clubs == LoadRecentClubs(stored)
    ensures writeSucceeds ==> clubs == Without(LoadRecentClubs(stored), TrimLower(topic))
    ensures writeSucceeds ==> TrimLower(topic) !in clubs
  {
    var previous := LoadRecentClubs(stored);
    if writeSucceeds then Without(previous, TrimLower(topic)) else previous
  }

  /** Removing the club just added leaves the other clubs that were kept. */
  lemma RemoveAfterAdd(previous: seq<string>, topic: string)
    requires TrimLower(topic) != ""
    ensures var club := TrimLower(topic);
            var added := AddRecentClub(StoreRecentClubs(previous), topic, true);
            RemoveRecentClub(StoreRecentClubs(added), topic, true)
              == Take(Without(previous, club), MaxRecentClubs - 1)
  {
    var club := TrimLower(topic);
    LoadAfterStore(previous);
    var added := AddRecentClub(StoreRecentClubs(previous), topic, true);
    LoadAfterStore(added);
    var tail := added[1..];
    assert added == [club] + tail;
    WithoutAppend([club], tail, club);
    WithoutAbsent(tail, club);
  }
}
