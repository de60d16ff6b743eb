/**
 * The query string of a request URL: how the client writes parameters into it
 * (`key=value&` after the '?') and how the server reads them back into named values.
 */
module UrlQuery {
  import opened Wrappers
  import opened Text

  /** One query parameter: a key and its value. */
  datatype Param = Param(key: string, value: string)

  /** The client's encoding: every parameter as `key=value&`, in order. */
  function EncodeQuery(ps: seq<Param>): string
  {
    if ps == [] then "" else ps[0].key + "=" + ps[0].value + "&" + EncodeQuery(ps[1..])
  }

  lemma {:induction false} EncodeAppend(a: seq<Param>, b: seq<Param>)
    ensures EncodeQuery(a + b) == EncodeQuery(a) + EncodeQuery(b)
    decreases |a|
  {
    if a == [] {
      assert a + b == b;
    } else {
      assert (a + b)[1..] == a[1..] + b;
      EncodeAppend(a[1..], b);
    }
  }

  /** The text before the first c and the text after it; all of s and "" when c does not occur. */
  function SplitAtFirst(s: string, c: char): (r: (string, string))
    ensures c in s ==> c !in r.0 && r.0 + [c] + r.1 == s
    ensures c !in s ==> r == (s, "")
    decreases |s|
  {
    if s == [] then ("", "")
    else if s[0] == c then ("", s[1..])
    else
      var rest := SplitAtFirst(s[1..], c);
      assert s == [s[0]] + s[1..];
      ([s[0]] + rest.0, rest.1)
  }

  /** The parameters of the pieces between '&'s; empty pieces carry nothing. */
  function ParsePieces(pieces: seq<string>): seq<Param>
  {
    if pieces == [] then []
    else if pieces[0] == "" then ParsePieces(pieces[1..])
    else
      var kv := SplitAtFirst(pieces[0], '=');
      [Param(kv.0, kv.1)] + ParsePieces(pieces[1..])
  }

  /** The server's reading of a query string into its parameters, in order. */
  function ParseQuery(s: string): seq<Param>
  {
    ParsePieces(Split(s, '&'))
  }

  /** The value of the first parameter named key, if any. */
  function Lookup(ps: seq<Param>, key: string): (r: Option<string>)
    ensures r.Some? <==> exists i :: 0 <= i < |ps| && ps[i].key == key
    ensures r.Some? ==> Param(key, r.value) in ps
  {
    if ps == [] then None
    else if ps[0].key == key then Some(ps[0].value)
    else
      var r := Lookup(ps[1..], key);
      assert forall i :: 1 <= i < |ps| ==> ps[i] == ps[1..][i - 1];
      r
  }

  /** The first parameter of a concatenation named key is the first in a, or else the first in b. */
  lemma {:induction false} LookupAppend(a: seq<Param>, b: seq<Param>, key: string)
    ensures Lookup(a + b, key) == if Lookup(a, key).Some? then Lookup(a, key) else Lookup(b, key)
    decreases |a|
  {
    if a == [] {
      assert a + b == b;
    } else {
      assert (a + b)[1..] == a[1..] + b;
      LookupAppend(a[1..], b, key);
    }
  }

  /** A parameter the client can write so that the server reads it back unchanged. */
  predicate Plain(p: Param)
  {
    p.key != "" && '=' !in p.key && '&' !in p.key && '&' !in p.value
  }

  lemma {:induction false} ParseEncode(ps: seq<Param>)
    requires forall i :: 0 <= i < |ps| ==> Plain(ps[i])
    ensures ParseQuery(EncodeQuery(ps)) == ps
    decreases |ps|
  {
    if ps == [] {
      assert Split("", '&') == [""];
    } else {
      var p := ps[0];
      var piece := p.key + "=" + p.value;
      var rest := EncodeQuery(ps[1..]);
      assert EncodeQuery(ps) == piece + ['&'] + rest;
      assert '&' !in piece by {
        assert forall i :: 0 <= i < |piece| ==> piece[i] != '&' by {
          forall i | 0 <= i < |piece| ensures piece[i] != '&' {
            if i < |p.key| {
              assert piece[i] == p.key[i];
            } else if i > |p.key| {
              assert piece[i] == p.value[i - |p.key| - 1];
            }
          }
        }
      }
      SplitAfterPiece(piece, '&', rest);
      ParseEncode(ps[1..]);
      assert piece != "";
      SplitAtFirstAfterKey(p.key, '=', p.value);
    }
  }

  /** A separator-free key followed by the separator splits back into that key and the rest. */
  lemma {:induction false} SplitAtFirstAfterKey(k: string, c: char, v: string)
    requires c !in k
    ensures SplitAtFirst(k + [c] + v, c) == (k, v)
    decreases |k|
  {
    var s := k + [c] + v;
    if k == [] {
      assert s[1..] == v;
    } else {
      assert s[1..] == k[1..] + [c] + v;
      SplitAtFirstAfterKey(k[1..], c, v);
      assert [k[0]] + k[1..] == k;
    }
  }
}
