/**
 * The JSON text the listing functions assemble with `strcat`: quoted strings and
 * comma-separated lists, together with a reader for quoted-string lists that undoes them.
 * Nothing is escaped, exactly as in the C code.
 */
module Json {
  import opened Wrappers

  /** `"%s"`: the characters of `s` between double quotes, unescaped. */
  function Quoted(s: string): (r: string)
    ensures |r| == |s| + 2 && r[0] == '"' && r[|r| - 1] == '"' && r[1..|r| - 1] == s
  {
    "\"" + s + "\""
  }

  /** A string containing no double quote, so quoting it can be undone. */
  predicate QuoteFree(s: string) {
    forall k :: 0 <= k < |s| ==> s[k] != '"'
  }

  /** Each item quoted. */
  function QuoteAll(items: seq<string>): (r: seq<string>)
    ensures |r| == |items| && forall i :: 0 <= i < |items| ==> r[i] == Quoted(items[i])
  {
    seq(|items|, i requires 0 <= i < |items| => Quoted(items[i]))
  }

  /** The items separated by single commas. */
  function CommaJoin(items: seq<string>): string {
    if |items| == 0 then ""
    else if |items| == 1 then items[0]
    else items[0] + "," + CommaJoin(items[1..])
  }

  /**
   * Appending one more item is what the C loops do: a comma first unless nothing has been
   * written yet.
   */
  lemma {:induction false} CommaJoinSnoc(items: seq<string>, x: string)
    ensures CommaJoin(items + [x]) == if |items| == 0 then x else CommaJoin(items) + "," + x
    decreases |items|
  {
    if |items| >= 2 {
      assert (items + [x])[1..] == items[1..] + [x];
      CommaJoinSnoc(items[1..], x);
    } else if |items| == 1 {
      assert (items + [x])[1..] == [x];
    }
  }

  /** The loop step itself: text holding a joined list, extended by one item the way `strcat` does it. */
  lemma JoinStep(head: string, items: seq<string>, x: string, text: string)
    requires text == head + CommaJoin(items)
    ensures (if |items| == 0 then text + x else text + "," + x) == head + CommaJoin(items + [x])
  {
    CommaJoinSnoc(items, x);
    if |items| > 0 {
      AppendAssoc(head, CommaJoin(items), "," + x);
    }
  }

  /** Regrouping a concatenation of three strings. */
  lemma AppendAssoc(a: string, b: string, c: string)
    ensures (a + b) + c == a + (b + c)
  {
  }

  /** The index of the first double quote in `s`, or `|s|` when there is none. */
  function NextQuote(s: string): (k: nat)
    ensures k <= |s| && QuoteFree(s[..k])
    ensures k < |s| ==> s[k] == '"'
  {
    if |s| == 0 || s[0] == '"' then 0
    else
      var k := 1 + NextQuote(s[1..]);
      assert s[..k] == [s[0]] + s[1..][..k - 1];
      k
  }

  /**
   * Reads back a comma-separated list of quoted strings: each item is a quote, the text up
   * to the next quote, and that closing quote, followed by a comma or by the end.
   */
  function ReadQuotedList(body: string): Option<seq<string>>
    decreases |body|
  {
    if |body| == 0 then Some([])
    else if body[0] != '"' then None
    else
      var k := 1 + NextQuote(body[1..]);
      if k == |body| then None
      else
        var item := body[1..k];
        var rest := body[k + 1..];
        if |rest| == 0 then Some([item])
        else if rest[0] != ',' || |rest| == 1 then None
        else match ReadQuotedList(rest[1..])
          case None => None
          case Some(items) => Some([item] + items)
  }

  /** The quote that closes `Quoted(s)` is the first one after the opening quote. */
  lemma QuotedThenRest(s: string, rest: string)
    requires QuoteFree(s)
    ensures var body := Quoted(s) + rest;
      1 + NextQuote(body[1..]) == |s| + 1
  {
    var body := Quoted(s) + rest;
    NextQuoteOfPrefix(s, "\"" + rest);
    assert body[1..] == s + ("\"" + rest);
  }

  /** Skipping a quote-free prefix finds the quote that follows it. */
  lemma {:induction false} NextQuoteOfPrefix(s: string, t: string)
    requires QuoteFree(s) && |t| > 0 && t[0] == '"'
    ensures NextQuote(s + t) == |s|
    decreases |s|
  {
    if |s| > 0 {
      assert (s + t)[1..] == s[1..] + t;
      NextQuoteOfPrefix(s[1..], t);
    } else {
      assert s + t == t;
    }
  }

  /** Quoting and joining quote-free strings, then reading the list back, gives the strings again. */
  lemma {:induction false} ReadQuotedListOfJoin(items: seq<string>)
    requires forall i :: 0 <= i < |items| ==> QuoteFree(items[i])
    ensures ReadQuotedList(CommaJoin(QuoteAll(items))) == Some(items)
    decreases |items|
  {
    if |items| > 0 {
      var q := QuoteAll(items);
      var s := items[0];
      if |items| == 1 {
        assert CommaJoin(q) == Quoted(s) + "";
        ReadFirstItem(s, "");
        assert [s] == items;
      } else {
        var tail := CommaJoin(QuoteAll(items[1..]));
        assert q[1..] == QuoteAll(items[1..]);
        assert CommaJoin(q) == Quoted(s) + ("," + tail);
        assert |tail| >= 2 by {
          assert |QuoteAll(items[1..])[0]| >= 2;
          CommaJoinHead(QuoteAll(items[1..]));
        }
        ReadFirstItem(s, "," + tail);
        assert ("," + tail)[1..] == tail;
        ReadQuotedListOfJoin(items[1..]);
        assert [s] + items[1..] == items;
      }
    }
  }

  /** Reading a quoted quote-free string, followed by nothing or by a comma and more. */
  lemma ReadFirstItem(s: string, rest: string)
    requires QuoteFree(s)
    requires |rest| == 0 || (|rest| >= 2 && rest[0] == ',')
    ensures ReadQuotedList(Quoted(s) + rest) ==
      if |rest| == 0 then Some([s])
      else match ReadQuotedList(rest[1..])
        case None => None
        case Some(xs) => Some([s] + xs)
  {
    var body := Quoted(s) + rest;
    QuotedThenRest(s, rest);
    assert body[1..|s| + 1] == s;
    assert body[|s| + 2..] == rest;
  }

  /** A joined list is at least as long as its first item. */
  lemma CommaJoinHead(items: seq<string>)
    requires |items| > 0
    ensures |CommaJoin(items)| >= |items[0]|
  {
  }
}
