/** Lists written into a text with a separator between the items, and cut out of
    it again. */
module Joining {
  /** Cuts a text at every separator, from the left; what is before is still to be cut off. */
  function SplitFrom(before: string, s: string, sep: string): seq<string>
    requires sep != ""
    decreases |s|
  {
    if s == "" then [before]
    else if sep <= s then [before] + SplitFrom("", s[|sep|..], sep)
    else SplitFrom(before + [s[0]], s[1..], sep)
  }

  function Split(s: string, sep: string): seq<string>
    requires sep != ""
  {
    SplitFrom("", s, sep)
  }

  function Join(items: seq<string>, sep: string): string {
    if items == [] then ""
    else if |items| == 1 then items[0]
    else Join(items[..|items| - 1], sep) + sep + items[|items| - 1]
  }

  /** No separator begins in the item, not even one that ends behind it. */
  predicate IsClean(item: string, sep: string)
    requires |sep| >= 2
  {
    forall i | 0 <= i < |item| :: item[i] == sep[0] ==> i + 1 < |item| && item[i + 1] != sep[1]
  }

  lemma {:induction false} SplitItem(before: string, item: string, rest: string, sep: string)
    requires |sep| >= 2 && IsClean(item, sep)
    ensures SplitFrom(before, item + (sep + rest), sep) == [before + item] + SplitFrom("", rest, sep)
    decreases |item|
  {
    var s := item + (sep + rest);
    if item == "" {
      assert s == sep + rest && s[|sep|..] == rest && before + item == before;
    } else {
      assert s[0] == item[0] && (|item| > 1 ==> s[1] == item[1]);
      assert !(sep <= s);
      assert s[1..] == item[1..] + (sep + rest);
      SplitItem(before + [item[0]], item[1..], rest, sep);
      assert before + [item[0]] + item[1..] == before + item;
    }
  }

  lemma {:induction false} SplitLast(before: string, item: string, sep: string)
    requires |sep| >= 2 && IsClean(item, sep)
    ensures SplitFrom(before, item, sep) == [before + item]
    decreases |item|
  {
    if item == "" {
      assert before + item == before;
    } else {
      assert item[0] == sep[0] ==> |item| > 1 && item[1] != sep[1];
      SplitLast(before + [item[0]], item[1..], sep);
      assert before + [item[0]] + item[1..] == before + item;
    }
  }

  lemma {:induction false} JoinFront(items: seq<string>, sep: string)
    requires |items| > 1
    ensures Join(items, sep) == items[0] + (sep + Join(items[1..], sep))
  {
    var init, last := items[..|items| - 1], items[|items| - 1];
    if |items| == 2 {
      assert init == [items[0]] && items[1..] == [last];
    } else {
      JoinFront(init, sep);
      assert init[1..] == items[1..][..|items| - 2];
      assert Join(items[1..], sep) == Join(init[1..], sep) + sep + last;
    }
  }

  /** What was joined is cut apart again. */
  lemma {:induction false} SplitJoin(items: seq<string>, sep: string)
    requires items != [] && |sep| >= 2 && forall i | 0 <= i < |items| :: IsClean(items[i], sep)
    ensures Split(Join(items, sep), sep) == items
  {
    if |items| == 1 {
      SplitLast("", items[0], sep);
      assert "" + items[0] == items[0];
    } else {
      JoinFront(items, sep);
      SplitItem("", items[0], Join(items[1..], sep), sep);
      SplitJoin(items[1..], sep);
      assert "" + items[0] == items[0];
    }
  }
}
