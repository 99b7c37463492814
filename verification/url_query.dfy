/**
 * How a browser or a link handler reads a URL string back: the fragment
 * starts at the first '#', the query is what follows the first '?' before
 * it, and the query is a list of name=value pairs separated by '&'. Values
 * are returned as written, still percent-encoded. This is the reference
 * reading against which the WhatsApp link is checked.
 */
module UrlQuery {
  import opened Optional

  /** The index of the first `c` in `s`, or `|s|` when there is none. */
  function IndexOf(s: string, c: char): (k: nat)
    ensures k <= |s|
    ensures forall i :: 0 <= i < k ==> s[i] != c
    ensures k < |s| ==> s[k] == c
  {
    if s == [] then 0 else if s[0] == c then 0 else 1 + IndexOf(s[1..], c)
  }

  /** The URL without its fragment. */
  function WithoutFragment(url: string): string {
    url[..IndexOf(url, '#')]
  }

  /** Everything before the query: scheme, host and path. */
  function BeforeQuery(url: string): string {
    var u := WithoutFragment(url);
    u[..IndexOf(u, '?')]
  }

  /** The query, if the URL has one. */
  function Query(url: string): Option<string> {
    var u := WithoutFragment(url);
    var q := IndexOf(u, '?');
    if q == |u| then None else Some(u[q + 1..])
  }

  /** The raw value of the first pair named `name` in `query`. */
  function ParamValue(query: string, name: string): Option<string>
    decreases |query|
  {
    var a := IndexOf(query, '&');
    var pair := query[..a];
    var e := IndexOf(pair, '=');
    if pair[..e] == name then Some(if e < |pair| then pair[e + 1..] else "")
    else if a < |query| then ParamValue(query[a + 1..], name)
    else None
  }

  /** The raw value of query parameter `name` of `url`. */
  function QueryValue(url: string, name: string): Option<string> {
    match Query(url)
    case None => None
    case Some(q) => ParamValue(q, name)
  }

  lemma IndexOfAbsent(s: string, c: char)
    requires c !in s
    ensures IndexOf(s, c) == |s|
  {
  }

  lemma IndexOfFirst(a: string, c: char, b: string)
    requires c !in a
    ensures IndexOf(a + [c] + b, c) == |a|
  {
    var s := a + [c] + b;
    assert s[|a|] == c;
    assert forall i :: 0 <= i < |a| ==> s[i] == a[i];
  }

  /** A URL built as `head?name=value`, with no delimiter inside the pieces
      where it would be read as one, reads back as `head` and `value`. */
  lemma {:induction false} ReadBackTemplate(head: string, name: string, value: string)
    requires '#' !in head && '?' !in head
    requires '#' !in name && '&' !in name && '=' !in name
    requires '#' !in value && '&' !in value
    ensures BeforeQuery(head + "?" + name + "=" + value) == head
    ensures Query(head + "?" + name + "=" + value) == Some(name + "=" + value)
    ensures QueryValue(head + "?" + name + "=" + value, name) == Some(value)
  {
    var url := head + "?" + name + "=" + value;
    var query := name + "=" + value;
    assert url == head + ['?'] + query;
    assert '#' !in query;
    IndexOfAbsent(url, '#');
    assert WithoutFragment(url) == url;
    IndexOfFirst(head, '?', query);
    assert url[..|head|] == head;
    assert url[|head| + 1..] == query;
    IndexOfAbsent(query, '&');
    assert query[..|query|] == query;
    assert query == name + ['='] + value;
    IndexOfFirst(name, '=', value);
    assert query[..|name|] == name;
    assert query[|name| + 1..] == value;
  }
}
