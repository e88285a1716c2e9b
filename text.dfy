/** Joining strings with a separator (Python's `sep.join(parts)`, and
    JavaScript's `parts.join(sep)`, which agrees with it on strings), with
    the facts the prompt composition and the identifier rendering rely on. */
module Text {

  /** `sep.join(parts)`: the parts with `sep` between consecutive ones. */
  function Join(sep: string, parts: seq<string>): string
  {
    if |parts| == 0 then ""
    else if |parts| == 1 then parts[0]
    else parts[0] + sep + Join(sep, parts[1..])
  }

  /** Joining one part more appends the separator and that part. */
  lemma {:induction false} JoinSnoc(sep: string, parts: seq<string>, last: string)
    requires |parts| > 0
    ensures Join(sep, parts + [last]) == Join(sep, parts) + sep + last
  {
    if |parts| == 1 {
      assert (parts + [last])[1..] == [last];
    } else {
      assert (parts + [last])[1..] == parts[1..] + [last];
      JoinSnoc(sep, parts[1..], last);
    }
  }

  /** With a non-empty separator, a join is empty exactly when there is no
      part or a single empty part. */
  lemma {:induction false} JoinEmpty(sep: string, parts: seq<string>)
    requires |sep| > 0
    ensures Join(sep, parts) == "" <==> |parts| == 0 || (|parts| == 1 && parts[0] == "")
  {
    if |parts| > 1 {
      assert |Join(sep, parts)| >= |sep|;
    }
  }

  /** Joining behind one more leading part puts it and the separator in front. */
  lemma JoinCons(sep: string, x: string, parts: seq<string>)
    requires |parts| > 0
    ensures Join(sep, [x] + parts) == x + sep + Join(sep, parts)
  {
    assert ([x] + parts)[1..] == parts;
  }

  /** Seven parts joined: the separator once between neighbours. */
  lemma JoinSeven(sep: string, a: string, b: string, c: string, d: string, e: string, f: string, g: string)
    ensures Join(sep, [a, b, c, d, e, f, g]) == a + sep + b + sep + c + sep + d + sep + e + sep + f + sep + g
  {
    JoinCons(sep, f, [g]);
    assert [f, g] == [f] + [g];
    JoinCons(sep, e, [f, g]);
    assert [e, f, g] == [e] + [f, g];
    JoinCons(sep, d, [e, f, g]);
    assert [d, e, f, g] == [d] + [e, f, g];
    JoinCons(sep, c, [d, e, f, g]);
    assert [c, d, e, f, g] == [c] + [d, e, f, g];
    JoinCons(sep, b, [c, d, e, f, g]);
    assert [b, c, d, e, f, g] == [b] + [c, d, e, f, g];
    JoinCons(sep, a, [b, c, d, e, f, g]);
    assert [a, b, c, d, e, f, g] == [a] + [b, c, d, e, f, g];
  }

  /** Seven sections and at most one more, joined. */
  lemma JoinSections(sep: string, a: string, b: string, c: string, d: string, e: string, f: string, g: string,
                     more: seq<string>)
    requires |more| <= 1
    ensures Join(sep, [a, b, c, d, e, f, g] + more)
         == a + sep + b + sep + c + sep + d + sep + e + sep + f + sep + g + (if more == [] then "" else sep + more[0])
  {
    JoinSeven(sep, a, b, c, d, e, f, g);
    if more == [] {
      assert [a, b, c, d, e, f, g] + more == [a, b, c, d, e, f, g];
    } else {
      assert more == [more[0]];
      JoinSnoc(sep, [a, b, c, d, e, f, g], more[0]);
    }
  }
}
