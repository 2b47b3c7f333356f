/** Comma lists in the environment. */
module Lists {
  import opened Options
  import opened Text

  /** The items of a comma list: its pieces, trimmed, blank ones dropped. */
  function Items(pieces: seq<string>): seq<string> {
    if pieces == [] then []
    else (if Trim(pieces[0]) != "" then [Trim(pieces[0])] else []) + Items(pieces[1..])
  }

  function Parse(v: string): seq<string> {
    Items(Split(v, ','))
  }

  predicate Clean(items: seq<string>) {
    forall i :: 0 <= i < |items| ==> items[i] != "" && Trimmed(items[i]) && ',' !in items[i]
  }

  lemma {:induction false} ItemsAppend(a: seq<string>, b: seq<string>)
    ensures Items(a + b) == Items(a) + Items(b)
  {
    if a == [] {
      assert a + b == b;
    } else {
      assert (a + b)[1..] == a[1..] + b;
      ItemsAppend(a[1..], b);
    }
  }

  /** The items are the trimmed pieces, in order, save the blank ones. */
  ghost predicate Picks(items: seq<string>, pieces: seq<string>, at: seq<nat>) {
    && |at| == |items|
    && (forall k, m :: 0 <= k < m < |at| ==> at[k] < at[m])
    && (forall k :: 0 <= k < |at| ==> at[k] < |pieces| && items[k] == Trim(pieces[at[k]]) && !Spaces(pieces[at[k]]))
    && (forall i :: 0 <= i < |pieces| && i !in at ==> Spaces(pieces[i]))
  }

  ghost predicate AllBlank(pieces: seq<string>) {
    forall i :: 0 <= i < |pieces| ==> Spaces(pieces[i])
  }

  /**
   * What reading a list variable returns, told from the pieces between the commas: the pieces that
   * are not blank, trimmed, or else the fallback.
   */
  ghost predicate Reads(list: seq<string>, pieces: seq<string>, fallback: seq<string>) {
    if AllBlank(pieces) then list == fallback else exists at :: Picks(list, pieces, at)
  }

  /** The value of a list variable; unset, empty and blank lists give way to the fallback. */
  method GetEnvSlice(env: Option<string>, fallback: seq<string>) returns (list: seq<string>)
    ensures list == if env.Some? && Parse(env.value) != [] then Parse(env.value) else fallback
    ensures env.None? ==> list == fallback
    ensures forall pieces :: pieces != [] && Free(pieces, ',') && env == Some(Join(pieces, ',')) ==> Reads(list, pieces, fallback)
    ensures Clean(fallback) ==> Clean(list)
  {
    forall pieces | pieces != [] && Free(pieces, ',') && env == Some(Join(pieces, ','))
      ensures Reads(if Parse(env.value) != [] then Parse(env.value) else fallback, pieces, fallback)
    {
      var at := ParsePicks(pieces);
    }
    if env.Some? && env.value != "" {
      var pieces := Split(env.value, ',');
      var parts := [];
      for i := 0 to |pieces|
        invariant parts == Items(pieces[..i])
      {
        assert pieces[..i + 1] == pieces[..i] + [pieces[i]];
        ItemsAppend(pieces[..i], [pieces[i]]);
        assert [pieces[i]][1..] == [];
        var trimmed := Trim(pieces[i]);
        if trimmed != "" {
          parts := parts + [trimmed];
        }
      }
      assert pieces[..|pieces|] == pieces;
      if |parts| > 0 {
        ParseIsClean(env.value);
        return parts;
      }
    }
    assert env.Some? && env.value == "" ==> Parse(env.value) == [] by {
      assert Split("", ',') == [""] && [""][1..] == [];
    }
    return fallback;
  }

  lemma {:induction false} ItemsAreClean(pieces: seq<string>)
    requires Free(pieces, ',')
    ensures Clean(Items(pieces))
  {
    if pieces != [] {
      ItemsAreClean(pieces[1..]);
      var lead, trail := TrimTakesTheEnds(pieces[0]);
      assert forall c :: c in Trim(pieces[0]) ==> c in pieces[0];
    }
  }

  /** Every parsed list holds trimmed, non-empty, comma-free items. */
  lemma {:induction false} ParseIsClean(v: string)
    ensures Clean(Parse(v))
  {
    SplitCuts(v, ',');
    ItemsAreClean(Split(v, ','));
  }

  lemma {:induction false} CleanItems(items: seq<string>)
    requires Clean(items)
    ensures Items(items) == items
  {
    if items != [] {
      CleanItems(items[1..]);
      assert Trim(items[0]) == items[0];
      assert items == [items[0]] + items[1..];
    }
  }

  /** Printing a clean list and parsing it gives the list back. */
  lemma {:induction false} ParsePrinted(items: seq<string>)
    requires items != [] && Clean(items)
    ensures Parse(Join(items, ',')) == items
  {
    SplitJoin(items, ',');
    CleanItems(items);
  }

  /** Whatever was parsed survives being printed and parsed again. */
  lemma {:induction false} ParseIsIdempotent(v: string)
    requires Parse(v) != []
    ensures Parse(Join(Parse(v), ',')) == Parse(v)
  {
    ParseIsClean(v);
    ParsePrinted(Parse(v));
  }

  /** The items come from the pieces in order, and only blank pieces are passed over. */
  lemma {:induction false} ItemsKeepOrder(pieces: seq<string>) returns (at: seq<nat>)
    ensures Picks(Items(pieces), pieces, at)
  {
    if pieces == [] {
      at := [];
    } else {
      var front, last := pieces[..|pieces| - 1], pieces[|pieces| - 1];
      at := ItemsKeepOrder(front);
      assert pieces == front + [last];
      ItemsAppend(front, [last]);
      assert [last][1..] == [];
      TrimBlank(last);
      PicksMore(Items(front), front, at, last);
      if Trim(last) != "" {
        at := at + [|pieces| - 1];
      }
    }
  }

  lemma {:induction false} PicksMore(items: seq<string>, pieces: seq<string>, at: seq<nat>, last: string)
    requires Picks(items, pieces, at)
    ensures Spaces(last) ==> Picks(items, pieces + [last], at)
    ensures !Spaces(last) ==> Picks(items + [Trim(last)], pieces + [last], at + [|pieces|])
  {
    var more, at' := pieces + [last], at + [|pieces|];
    assert forall i :: 0 <= i < |pieces| ==> more[i] == pieces[i];
    assert forall x :: x in at ==> x in at';
    assert at'[|at|] == |pieces|;
  }

  /**
   * Parsing a comma list, told from the pieces between its commas: they come back trimmed and in
   * order, all but the blank ones, and nothing else does.
   */
  lemma {:induction false} ParsePicks(pieces: seq<string>) returns (at: seq<nat>)
    requires pieces != [] && Free(pieces, ',')
    ensures Picks(Parse(Join(pieces, ',')), pieces, at)
    ensures Parse(Join(pieces, ',')) == [] <==> AllBlank(pieces)
  {
    SplitJoin(pieces, ',');
    at := ItemsKeepOrder(pieces);
    if at != [] {
      assert !Spaces(pieces[at[0]]);
    }
  }
}
