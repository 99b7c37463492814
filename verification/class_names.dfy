/**
 * The class-name composer `cn`: it keeps the truthy inputs (`filter(Boolean)`)
 * and joins them with one space (`join(" ")`).
 */
module ClassNames {
  import opened Optional
  import opened TokenList

  /** One argument of `cn`: a string, null, undefined or a boolean. */
  datatype ClassValue = Str(s: string) | Null | Undefined | Bool(b: bool)

  /** JavaScript truthiness, the test `filter(Boolean)` applies: a non-empty
      string or `true`. Apart from `false`, whose text is "false", a value
      is truthy exactly when `join` would write it as non-empty text. */
  predicate Truthy(v: ClassValue)
    ensures Truthy(v) <==> ToText(v) != "" && v != Bool(false)
  {
    match v
    case Str(s) => s != ""
    case Bool(b) => b
    case Null => false
    case Undefined => false
  }

  /** The text `join` writes for one element: a string as it is, a boolean as
      "true" or "false", null and undefined as nothing. Only the empty
      string, null and undefined give empty text. */
  function ToText(v: ClassValue): (t: string)
    ensures t == "" ==> v == Str("") || v == Null || v == Undefined
  {
    match v
    case Str(s) => s
    case Bool(b) => if b then "true" else "false"
    case Null => ""
    case Undefined => ""
  }

  /** An optional `className` prop as an argument of `cn`. */
  function FromOptional(className: Option<string>): (v: ClassValue)
    ensures Truthy(v) <==> className.Some? && className.value != ""
    ensures ToText(v) == className.GetOr("")
  {
    match className
    case Some(c) => Str(c)
    case None => Undefined
  }

  /** `filter(Boolean)`: the truthy elements, in order. */
  function Filter(xs: seq<ClassValue>): (r: seq<ClassValue>)
    ensures |r| <= |xs|
    ensures forall i :: 0 <= i < |r| ==> Truthy(r[i])
  {
    if xs == [] then []
    else (if Truthy(xs[0]) then [xs[0]] else []) + Filter(xs[1..])
  }

  /** The elements rendered as text, as `join` renders them. */
  function Texts(xs: seq<ClassValue>): (r: seq<string>)
    ensures |r| == |xs|
    ensures forall i :: 0 <= i < |xs| ==> r[i] == ToText(xs[i])
  {
    if xs == [] then [] else [ToText(xs[0])] + Texts(xs[1..])
  }

  /** `join(sep)`: the parts with `sep` between each two neighbours. The
      result begins with the first part (`JoinEndsWithLast`: and ends with
      the last). */
  function Join(parts: seq<string>, sep: string): (r: string)
    ensures parts == [] ==> r == ""
    ensures |parts| > 0 ==> parts[0] <= r
  {
    if |parts| == 0 then ""
    else if |parts| == 1 then parts[0]
    else parts[0] + sep + Join(parts[1..], sep)
  }

  /** The class name `cn(...inputs)` returns. It is empty exactly when no
      input is truthy; in particular an empty list gives the empty string. */
  function Cn(inputs: seq<ClassValue>): (r: string)
    ensures r == "" <==> forall i :: 0 <= i < |inputs| ==> !Truthy(inputs[i])
  {
    FilterEmpty(inputs);
    JoinOfNonEmpty(Texts(Filter(inputs)), " ");
    Join(Texts(Filter(inputs)), " ")
  }

  /** No leading or trailing space and no two spaces in a row. */
  predicate WellSpaced(s: string) {
    && (|s| > 0 ==> s[0] != ' ' && s[|s| - 1] != ' ')
    && forall i :: 0 <= i < |s| - 1 ==> !(s[i] == ' ' && s[i + 1] == ' ')
  }

  // ---------------------------------------------------------------- Filter

  /** Filtering distributes over concatenation, so it keeps the input order. */
  lemma {:induction false} FilterAppend(a: seq<ClassValue>, b: seq<ClassValue>)
    ensures Filter(a + b) == Filter(a) + Filter(b)
  {
    if a == [] {
      assert a + b == b;
    } else {
      assert (a + b)[1..] == a[1..] + b;
      FilterAppend(a[1..], b);
    }
  }

  /** Nothing is left exactly when nothing is truthy. */
  lemma {:induction false} FilterEmpty(xs: seq<ClassValue>)
    ensures Filter(xs) == [] <==> forall i :: 0 <= i < |xs| ==> !Truthy(xs[i])
  {
    if xs != [] {
      FilterEmpty(xs[1..]);
      assert forall i :: 1 <= i < |xs| ==> xs[i] == xs[1..][i - 1];
    }
  }

  /** The filter keeps every truthy value as often as it occurs and drops
      every falsy one (null, undefined, false and ""). */
  lemma {:induction false} FilterCounts(xs: seq<ClassValue>, v: ClassValue)
    ensures multiset(Filter(xs))[v] == if Truthy(v) then multiset(xs)[v] else 0
  {
    if xs != [] {
      FilterCounts(xs[1..], v);
      assert xs == [xs[0]] + xs[1..];
    }
  }

  /** The filter changes nothing exactly when every input is truthy. */
  lemma {:induction false} FilterIdentity(xs: seq<ClassValue>)
    ensures Filter(xs) == xs <==> forall i :: 0 <= i < |xs| ==> Truthy(xs[i])
  {
    if xs != [] {
      FilterIdentity(xs[1..]);
      assert forall i :: 1 <= i < |xs| ==> xs[i] == xs[1..][i - 1];
      if !Truthy(xs[0]) {
        assert |Filter(xs)| < |xs|;
      }
    }
  }

  // ---------------------------------------------------------------- Join

  lemma {:induction false} TextsAppend(a: seq<ClassValue>, b: seq<ClassValue>)
    ensures Texts(a + b) == Texts(a) + Texts(b)
  {
  }

  /** Joining a concatenation joins the two halves with one more separator,
      unless one half is empty. */
  lemma {:induction false} JoinAppend(a: seq<string>, b: seq<string>, sep: string)
    ensures Join(a + b, sep) ==
      if a == [] then Join(b, sep)
      else if b == [] then Join(a, sep)
      else Join(a, sep) + sep + Join(b, sep)
  {
    if a == [] {
      assert a + b == b;
    } else if b == [] {
      assert a + b == a;
    } else if |a| == 1 {
      assert (a + b)[1..] == b;
    } else {
      assert (a + b)[1..] == a[1..] + b;
      JoinAppend(a[1..], b, sep);
    }
  }

  /** A join ends with its last part. */
  lemma {:induction false} JoinEndsWithLast(parts: seq<string>, sep: string)
    requires |parts| > 0
    ensures var r, last := Join(parts, sep), parts[|parts| - 1];
      |last| <= |r| && r[|r| - |last|..] == last
  {
    if |parts| > 1 {
      JoinEndsWithLast(parts[1..], sep);
      SuffixOfTwo(parts[0] + sep, Join(parts[1..], sep));
    }
  }

  /** Joining non-empty parts gives the empty string only for no parts. */
  lemma {:induction false} JoinOfNonEmpty(parts: seq<string>, sep: string)
    requires forall i :: 0 <= i < |parts| ==> parts[i] != ""
    ensures Join(parts, sep) == "" <==> parts == []
  {
    if |parts| > 1 {
      assert |Join(parts, sep)| >= |parts[0]|;
    }
  }

  /** Joining non-empty, well-spaced parts with one space keeps the result
      well spaced. */
  lemma {:induction false} JoinWellSpaced(parts: seq<string>)
    requires forall i :: 0 <= i < |parts| ==> parts[i] != "" && WellSpaced(parts[i])
    ensures WellSpaced(Join(parts, " "))
  {
    if |parts| > 1 {
      JoinWellSpaced(parts[1..]);
      JoinOfNonEmpty(parts[1..], " ");
      SpaceBetween(parts[0], Join(parts[1..], " "));
    }
  }

  /** Two non-empty well-spaced strings with one space between them. */
  lemma SpaceBetween(p: string, q: string)
    requires p != "" && q != "" && WellSpaced(p) && WellSpaced(q)
    ensures WellSpaced(p + " " + q)
  {
    var t := p + " " + q;
    forall i | 0 <= i < |t| - 1
      ensures !(t[i] == ' ' && t[i + 1] == ' ')
    {
      if i < |p| - 1 {
        assert t[i] == p[i] && t[i + 1] == p[i + 1];
      } else if i == |p| - 1 {
        assert t[i] == p[|p| - 1];
      } else if i == |p| {
        assert t[i + 1] == q[0];
      } else {
        assert t[i] == q[i - |p| - 1] && t[i + 1] == q[i - |p|];
      }
    }
  }

  /** The token sequence of a joined string is the token sequences of its parts. */
  lemma {:induction false} JoinTokens(parts: seq<string>)
    ensures Tokens(Join(parts, " ")) == AllTokens(parts)
  {
    if |parts| == 1 {
      assert AllTokens(parts) == Tokens(parts[0]) + AllTokens([]);
    } else if |parts| > 1 {
      JoinTokens(parts[1..]);
      TokensAroundSpace(parts[0], ' ', Join(parts[1..], " "));
    }
  }

  // ---------------------------------------------------------------- cn

  /** `cn` over a concatenation: the two results joined with one space, and
      an empty side adds no space. */
  lemma CnAppend(a: seq<ClassValue>, b: seq<ClassValue>)
    ensures Cn(a + b) ==
      if Cn(a) == "" then Cn(b)
      else if Cn(b) == "" then Cn(a)
      else Cn(a) + " " + Cn(b)
  {
    FilterAppend(a, b);
    TextsAppend(Filter(a), Filter(b));
    JoinAppend(Texts(Filter(a)), Texts(Filter(b)), " ");
  }

  /** A truthy last argument is the last space-separated segment. */
  lemma CnLast(xs: seq<ClassValue>, x: ClassValue)
    requires Truthy(x)
    ensures Cn(xs + [x]) == if Cn(xs) == "" then ToText(x) else Cn(xs) + " " + ToText(x)
  {
    CnAppend(xs, [x]);
  }

  /** A truthy first argument begins the result. */
  lemma CnFirst(x: ClassValue, xs: seq<ClassValue>)
    requires Truthy(x)
    ensures Cn([x] + xs) == if Cn(xs) == "" then ToText(x) else ToText(x) + " " + Cn(xs)
  {
    CnAppend([x], xs);
  }

  /** A single non-empty string comes back unchanged; a lone `true` is
      rendered as the text "true". */
  lemma CnSingle(s: string)
    requires s != ""
    ensures Cn([Str(s)]) == s
    ensures Cn([Bool(true)]) == "true"
  {
  }

  /** When every kept fragment is itself well spaced, the result has no
      leading, trailing or doubled spaces. */
  lemma CnWellSpaced(inputs: seq<ClassValue>)
    requires forall i :: 0 <= i < |inputs| && Truthy(inputs[i]) ==> WellSpaced(ToText(inputs[i]))
    ensures WellSpaced(Cn(inputs))
  {
    var kept := Filter(inputs);
    forall j | 0 <= j < |kept|
      ensures WellSpaced(ToText(kept[j]))
    {
      FilterCounts(inputs, kept[j]);
      assert kept[j] in multiset(inputs);
    }
    JoinWellSpaced(Texts(kept));
  }

  /** The whitespace-separated token sequence of the result is the token
      sequences of the kept fragments, in input order: nothing is merged, split
      differently or reordered. */
  lemma CnTokens(inputs: seq<ClassValue>)
    ensures Tokens(Cn(inputs)) == AllTokens(Texts(Filter(inputs)))
  {
    JoinTokens(Texts(Filter(inputs)));
  }

  /** When every kept fragment is a single class name, reading the token sequence
      back gives exactly the kept fragments: decoding inverts `cn`. */
  lemma CnRoundTrip(inputs: seq<ClassValue>)
    requires forall i :: 0 <= i < |inputs| && Truthy(inputs[i]) ==> IsClassName(ToText(inputs[i]))
    ensures Tokens(Cn(inputs)) == Texts(Filter(inputs))
  {
    var kept := Filter(inputs);
    forall j | 0 <= j < |kept|
      ensures IsClassName(ToText(kept[j]))
    {
      FilterCounts(inputs, kept[j]);
      assert kept[j] in multiset(inputs);
    }
    CnTokens(inputs);
    AllTokensOfClassNames(Texts(kept));
  }

  /** `cn` of a lone optional `className`: the class name, or nothing. */
  lemma CnOfOptional(className: Option<string>)
    ensures Cn([FromOptional(className)]) == className.GetOr("")
  {
  }

  /** The text a caller's `className` adds after the fixed fragments: one
      space and the class name, or nothing when it is absent or empty. This
      is the reference form that `CnOne`, `CnTwo` and `CnThree` prove `cn`
      equal to; its contract ties it to the truthiness `cn` tests. */
  function OverrideSuffix(className: Option<string>): (t: string)
    ensures t == "" <==> !Truthy(FromOptional(className))
    ensures t != "" ==> t == " " + className.value
  {
    if className.Some? && className.value != "" then " " + className.value else ""
  }

  /** Appending the override suffix appends the override's class names. */
  lemma TokensWithOverride(front: string, className: Option<string>)
    ensures Tokens(front + OverrideSuffix(className)) == Tokens(front) + Tokens(className.GetOr(""))
  {
    if className.Some? && className.value != "" {
      assert front + OverrideSuffix(className) == front + [' '] + className.value;
      TokensAroundSpace(front, ' ', className.value);
    } else {
      assert front + OverrideSuffix(className) == front;
      assert Tokens(className.GetOr("")) == [];
    }
  }

  /** A non-empty override is the final space-separated segment. */
  lemma EndsWithOverride(front: string, c: string)
    requires c != ""
    ensures var r := front + OverrideSuffix(Some(c));
      |r| > |c| && r[|r| - |c| - 1] == ' ' && r[|r| - |c|..] == c
  {
  }

  /** A non-empty fragment in front of `cn`'s other arguments: the fragment,
      then one space and the rest only when the rest is non-empty. */
  lemma CnCons(a: string, xs: seq<ClassValue>)
    requires a != ""
    ensures Cn([Str(a)] + xs) == if Cn(xs) == "" then a else a + " " + Cn(xs)
  {
    CnFirst(Str(a), xs);
  }

  /** `cn` of one fixed non-empty fragment and an optional override. */
  lemma CnOne(a: string, className: Option<string>)
    requires a != ""
    ensures Cn([Str(a), FromOptional(className)]) == a + OverrideSuffix(className)
  {
    var o := [FromOptional(className)];
    assert [Str(a), FromOptional(className)] == [Str(a)] + o;
    CnCons(a, o);
    CnOfOptional(className);
    if className.Some? && className.value != "" {
      Associative(a, " ", className.value);
    } else {
      assert a + OverrideSuffix(className) == a;
    }
  }

  /** `cn` of two fixed non-empty fragments and an optional override. */
  lemma CnTwo(a: string, b: string, className: Option<string>)
    requires a != "" && b != ""
    ensures Cn([Str(a), Str(b), FromOptional(className)]) == a + " " + b + OverrideSuffix(className)
  {
    var rest := [Str(b), FromOptional(className)];
    assert [Str(a), Str(b), FromOptional(className)] == [Str(a)] + rest;
    assert Cn(rest) == b + OverrideSuffix(className) by { CnOne(b, className); }
    assert Cn([Str(a)] + rest) == a + " " + Cn(rest) by { CnCons(a, rest); }
    Associative(a + " ", b, OverrideSuffix(className));
    Associative(a, " ", b + OverrideSuffix(className));
  }

  /** `cn` of three fixed non-empty fragments and an optional override. */
  lemma CnThree(a: string, b: string, c: string, className: Option<string>)
    requires a != "" && b != "" && c != ""
    ensures Cn([Str(a), Str(b), Str(c), FromOptional(className)])
         == a + " " + b + " " + c + OverrideSuffix(className)
  {
    var rest := [Str(b), Str(c), FromOptional(className)];
    assert [Str(a), Str(b), Str(c), FromOptional(className)] == [Str(a)] + rest;
    var tail := b + " " + c + OverrideSuffix(className);
    assert Cn(rest) == tail by { CnTwo(b, c, className); }
    assert Cn([Str(a)] + rest) == a + " " + tail by { CnCons(a, rest); }
    Associative(a + " ", b + " " + c, OverrideSuffix(className));
    Associative(a + " ", b + " ", c);
    Associative(a + " ", b, " ");
    Associative(a, " ", tail);
  }

  /** The token sequence of two fragments and an override, single-spaced. */
  lemma TokensTwo(a: string, b: string, className: Option<string>)
    ensures Tokens(a + " " + b + OverrideSuffix(className))
         == Tokens(a) + Tokens(b) + Tokens(className.GetOr(""))
  {
    TokensWithOverride(a + " " + b, className);
    TokensAroundSpace(a, ' ', b);
  }

  /** The token sequence of three fragments and an override, single-spaced. */
  lemma TokensThree(a: string, b: string, c: string, className: Option<string>)
    ensures Tokens(a + " " + b + " " + c + OverrideSuffix(className))
         == Tokens(a) + Tokens(b) + Tokens(c) + Tokens(className.GetOr(""))
  {
    TokensWithOverride(a + " " + b + " " + c, className);
    TokensAroundSpace(a + " " + b, ' ', c);
    TokensAroundSpace(a, ' ', b);
  }

  /** Concatenation is associative; stated on its own so that the proofs
      above use it without searching for it. */
  lemma Associative<T>(a: seq<T>, b: seq<T>, c: seq<T>)
    ensures a + b + c == a + (b + c)
  {
  }

  /** The leftmost piece of a concatenation is a prefix of it. */
  lemma PrefixOfFive<T>(a: seq<T>, b: seq<T>, c: seq<T>, d: seq<T>, e: seq<T>)
    ensures a <= a + b + c + d + e
  {
    assert a + b + c + d + e == a + (b + c + d + e);
  }

  lemma PrefixOfFour<T>(a: seq<T>, b: seq<T>, c: seq<T>, d: seq<T>)
    ensures a <= a + b + c + d
  {
    assert a + b + c + d == a + (b + c + d);
  }

  lemma PrefixOfThree<T>(a: seq<T>, b: seq<T>, c: seq<T>)
    ensures a <= a + b + c
  {
    assert a + b + c == a + (b + c);
  }

  /** The rightmost piece of a concatenation is a suffix of it. */
  lemma SuffixOfTwo<T>(a: seq<T>, b: seq<T>)
    ensures |a + b| >= |b| && (a + b)[|a + b| - |b|..] == b
  {
  }

  /** The falsy entries of the example are dropped and the rest keep their order. */
  lemma ExampleKept()
    ensures Filter([Str("base"), Bool(false), Str("variant-x"), Undefined, Str("override-y")])
      == [Str("base"), Str("variant-x"), Str("override-y")]
  {
    var xs := [Str("base"), Bool(false), Str("variant-x"), Undefined, Str("override-y")];
    assert Filter(xs[4..]) == [Str("override-y")];
    assert Filter(xs[3..]) == [Str("override-y")];
    assert Filter(xs[2..]) == [Str("variant-x"), Str("override-y")];
    assert Filter(xs[1..]) == [Str("variant-x"), Str("override-y")];
  }

  /** The kept texts of the example joined by single spaces. */
  lemma ExampleJoined()
    ensures Join(["base", "variant-x", "override-y"], " ") == "base variant-x override-y"
  {
    var p := ["base", "variant-x", "override-y"];
    assert p[1..] == ["variant-x", "override-y"] && p[1..][1..] == ["override-y"];
    assert Join(p[1..], " ") == "variant-x" + " " + "override-y";
    assert Join(p, " ") == "base" + " " + ("variant-x" + " " + "override-y");
  }

  /** The worked example: falsy markers vanish without leaving spaces. */
  lemma CnExample()
    ensures Cn([Str("base"), Bool(false), Str("variant-x"), Undefined, Str("override-y")])
      == "base variant-x override-y"
  {
    var xs := [Str("base"), Bool(false), Str("variant-x"), Undefined, Str("override-y")];
    var kept := [Str("base"), Str("variant-x"), Str("override-y")];
    ExampleKept();
    assert Texts(kept) == ["base", "variant-x", "override-y"];
    ExampleJoined();
    assert Cn(xs) == Join(Texts(Filter(xs)), " ");
  }

}
