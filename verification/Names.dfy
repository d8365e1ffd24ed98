/** Names joined by a separator, and taking them apart again. */
module Names {

  /** Everything before the first slash and everything after it, if there is one. */
  function Cut(s: string): (r: (bool, string, string))
    ensures r.0 <==> '/' in s
    ensures r.0 ==> '/' !in r.1 && s == r.1 + "/" + r.2
  {
    if s == "" then (false, "", "")
    else if s[0] == '/' then (true, "", s[1..])
    else
      var (found, head, tail) := Cut(s[1..]);
      (found, [s[0]] + head, tail)
  }

  lemma {:induction false} CutAtFirst(head: string, tail: string)
    requires '/' !in head
    ensures Cut(head + "/" + tail) == (true, head, tail)
  {
    var s := head + "/" + tail;
    if head == "" {
      assert s[1..] == tail;
    } else {
      assert s[1..] == head[1..] + "/" + tail;
      CutAtFirst(head[1..], tail);
      assert s[0] == head[0] && [head[0]] + head[1..] == head;
    }
  }

  lemma {:induction false} SplitUnique(a: string, b: string, x: string, y: string, sep: char)
    requires sep !in a && sep !in b && a + [sep] + x == b + [sep] + y
    ensures a == b && x == y
  {
    var s, t := a + [sep] + x, b + [sep] + y;
    if a == [] || b == [] {
      assert s[0] == t[0];
      assert a == [] && b == [];
      assert s[1..] == x && t[1..] == y;
    } else {
      assert s[0] == a[0] && t[0] == b[0];
      assert s[1..] == a[1..] + [sep] + x && t[1..] == b[1..] + [sep] + y;
      SplitUnique(a[1..], b[1..], x, y, sep);
      assert a == [a[0]] + a[1..] && b == [b[0]] + b[1..];
    }
  }
}
