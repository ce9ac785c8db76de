/** The reason catalog of the lock command: the human tokens accepted by
    `--reason` (`reasons`), the wire forms of the GraphQL `LockReason` enum
    they are sent as (`reasonsApi`), and the map from one to the other that
    is built by walking both lists in step (`reasonsMap`). */
module Reasons {

  /** True iff `c` is an ASCII upper-case letter. */
  predicate IsUpperASCII(c: char) {
    'A' <= c <= 'Z'
  }

  /** Upper-casing of one character; only ASCII letters change. */
  function UpperChar(c: char): char
  {
    if 'a' <= c <= 'z' then (c as int - 32) as char else c
  }

  /** Upper-casing of a string, character by character (`strings.ToUpper`
      restricted to ASCII). */
  function ToUpperASCII(s: string): (u: string)
    ensures |u| == |s|
    ensures forall i :: 0 <= i < |s| ==> u[i] == UpperChar(s[i])
  {
    if s == [] then [] else [UpperChar(s[0])] + ToUpperASCII(s[1..])
  }

  /** True iff `s` has no ASCII upper-case letter: the alphabet of the
      human reason tokens (lower-case words joined by `_`). */
  predicate NoUpperASCII(s: string) {
    forall i :: 0 <= i < |s| ==> !IsUpperASCII(s[i])
  }

  /** No string appears twice. */
  predicate Distinct(s: seq<string>) {
    forall i, j :: 0 <= i < j < |s| ==> s[i] != s[j]
  }

  /** No two keys share a value. */
  predicate Injective(m: map<string, string>) {
    forall a, b :: a in m && b in m && a != b ==> m[a] != m[b]
  }

  lemma UpperCharInjective(a: char, b: char)
    requires !IsUpperASCII(a) && !IsUpperASCII(b)
    ensures UpperChar(a) == UpperChar(b) ==> a == b
  {
  }

  /** Upper-casing loses nothing on strings without upper-case letters, so
      two different reason tokens never share a wire form. */
  lemma ToUpperInjective(a: string, b: string)
    requires NoUpperASCII(a) && NoUpperASCII(b)
    ensures ToUpperASCII(a) == ToUpperASCII(b) ==> a == b
  {
    if ToUpperASCII(a) == ToUpperASCII(b) {
      forall i | 0 <= i < |a|
        ensures a[i] == b[i]
      {
        UpperCharInjective(a[i], b[i]);
      }
    }
  }

  /** The map built from the two lists: the i-th token is bound to the i-th
      wire form, a later binding of a repeated token replacing the earlier.
      The wire list must be at least as long as the token list: otherwise
      the construction indexes past its end and the program panics while
      building the map (`TestReasonsPasses` treats that as a failure). */
  function ZipMap(tokens: seq<string>, wires: seq<string>): (m: map<string, string>)
    requires |tokens| <= |wires|
    ensures m.Keys == set t | t in tokens
  {
    if tokens == [] then map[]
    else
      var n := |tokens| - 1;
      var prefix := ZipMap(tokens[..n], wires);
      assert forall t :: t in tokens <==> t in tokens[..n] || t == tokens[n];
      prefix[tokens[n] := wires[n]]
  }

  /** With distinct tokens, each token is bound to the wire form at its
      own position. */
  lemma {:induction false} ZipMapAt(tokens: seq<string>, wires: seq<string>, i: nat)
    requires |tokens| <= |wires| && Distinct(tokens) && i < |tokens|
    ensures ZipMap(tokens, wires)[tokens[i]] == wires[i]
  {
    var n := |tokens| - 1;
    if i < n {
      ZipMapAt(tokens[..n], wires, i);
      assert tokens[..n][i] == tokens[i];
      assert tokens[n] != tokens[i];
    }
  }

  /** The assertions of `TestReasons` on a given map: the two lists have
      equal length, and every token has an entry that is the token
      upper-cased. */
  predicate ConsistencyCheck(tokens: seq<string>, wires: seq<string>, m: map<string, string>) {
    && |tokens| == |wires|
    && forall t :: t in tokens ==> t in m && m[t] == ToUpperASCII(t)
  }

  /** `TestReasons` passes on a catalog made of these two lists: building the
      map does not run past the end of the wire list, and the built map
      passes the assertions. */
  predicate TestReasonsPasses(tokens: seq<string>, wires: seq<string>) {
    |tokens| <= |wires| && ConsistencyCheck(tokens, wires, ZipMap(tokens, wires))
  }

  /** The test passes exactly when the lists are parallel: same length, and
      each wire form is its token upper-cased. So a token added without its
      wire counterpart, a wire form added without its token, or a pair out
      of step is caught. */
  lemma ConsistencyCheckExact(tokens: seq<string>, wires: seq<string>)
    requires Distinct(tokens)
    ensures TestReasonsPasses(tokens, wires)
        <==> (|tokens| == |wires| && forall i :: 0 <= i < |tokens| ==> wires[i] == ToUpperASCII(tokens[i]))
    ensures |tokens| != |wires| ==> !TestReasonsPasses(tokens, wires)
  {
    if |tokens| <= |wires| {
      var m := ZipMap(tokens, wires);
      forall i | 0 <= i < |tokens|
        ensures m[tokens[i]] == wires[i]
      {
        ZipMapAt(tokens, wires, i);
      }
    }
  }

  /** Distinctness is needed above: when a token is repeated, its later
      binding replaces the earlier one, so a wrong wire form at the earlier
      position goes unnoticed by the test. */
  lemma RepeatedTokenMasksWireForm()
    ensures TestReasonsPasses(["a", "a"], ["X", "A"])
    ensures ["X", "A"][0] != ToUpperASCII(["a", "a"][0])
  {
    UpperCasedBy("a", "A");
    assert ZipMap(["a", "a"], ["X", "A"]) == map["a" := "A"] by {
      assert ["a", "a"][..1] == ["a"];
      assert ["a"][..0] == [];
    }
  }

  /** A catalog that passes the test, over distinct tokens without
      upper-case letters, is a bijection between the set of tokens and the
      set of wire forms. */
  lemma ConsistentCatalogIsBijection(tokens: seq<string>, wires: seq<string>)
    requires Distinct(tokens)
    requires forall i :: 0 <= i < |tokens| ==> NoUpperASCII(tokens[i])
    requires TestReasonsPasses(tokens, wires)
    ensures (ZipMap(tokens, wires)).Keys == set t | t in tokens
    ensures (ZipMap(tokens, wires)).Values == set w | w in wires
    ensures Injective(ZipMap(tokens, wires))
    ensures Distinct(wires)
  {
    var m := ZipMap(tokens, wires);
    ConsistencyCheckExact(tokens, wires);
    forall w | w in wires
      ensures w in m.Values
    {
      var i :| 0 <= i < |wires| && wires[i] == w;
      ZipMapAt(tokens, wires, i);
    }
    forall a, b | a in m && b in m && a != b
      ensures m[a] != m[b]
    {
      var i :| 0 <= i < |tokens| && tokens[i] == a;
      var j :| 0 <= j < |tokens| && tokens[j] == b;
      ToUpperInjective(a, b);
    }
    forall i, j | 0 <= i < j < |wires|
      ensures wires[i] != wires[j]
    {
      ToUpperInjective(tokens[i], tokens[j]);
    }
  }

  /** `reasons`: the human tokens `--reason` accepts. */
  const ReasonTokens: seq<string> := ["off_topic", "resolved", "spam", "too_heated"]

  /** `reasonsApi`: the wire forms, in the same order. */
  const ReasonsApi: seq<string> := ["OFF_TOPIC", "RESOLVED", "SPAM", "TOO_HEATED"]

  /** `reasonsMap`: token to wire form. */
  const ReasonsMap: map<string, string> := ZipMap(ReasonTokens, ReasonsApi)

  /** A string is the upper-casing of another when they agree position by
      position under `UpperChar`. */
  lemma UpperCasedBy(s: string, u: string)
    requires |u| == |s|
    requires forall i :: 0 <= i < |s| ==> u[i] == UpperChar(s[i])
    ensures ToUpperASCII(s) == u
  {
  }

  /** Each wire form of the catalog is its token upper-cased. */
  lemma UpperCaseLiterals()
    ensures forall i :: 0 <= i < |ReasonTokens| ==> ReasonsApi[i] == ToUpperASCII(ReasonTokens[i])
  {
    forall i | 0 <= i < |ReasonTokens|
      ensures ReasonsApi[i] == ToUpperASCII(ReasonTokens[i])
    {
      if i == 0 {
        UpperCasedBy("off_topic", "OFF_TOPIC");
      } else if i == 1 {
        UpperCasedBy("resolved", "RESOLVED");
      } else if i == 2 {
        UpperCasedBy("spam", "SPAM");
      } else {
        UpperCasedBy("too_heated", "TOO_HEATED");
      }
    }
  }

  /** The catalog's tokens are distinct and have no upper-case letters. */
  lemma TokensWellFormed()
    ensures Distinct(ReasonTokens)
    ensures forall i :: 0 <= i < |ReasonTokens| ==> NoUpperASCII(ReasonTokens[i])
  {
    assert ReasonTokens[0][0] == 'o' && ReasonTokens[1][0] == 'r';
    assert ReasonTokens[2][0] == 's' && ReasonTokens[3][0] == 't';
  }

  /** The catalog as shipped passes its own consistency test, and is a
      bijection between tokens and wire forms. */
  lemma CatalogConsistent()
    ensures |ReasonTokens| == |ReasonsApi|
    ensures TestReasonsPasses(ReasonTokens, ReasonsApi)
    ensures ConsistencyCheck(ReasonTokens, ReasonsApi, ReasonsMap)
    ensures ReasonsMap.Keys == set t | t in ReasonTokens
    ensures ReasonsMap.Values == set w | w in ReasonsApi
    ensures Injective(ReasonsMap)
  {
    TokensWellFormed();
    UpperCaseLiterals();
    ConsistencyCheckExact(ReasonTokens, ReasonsApi);
    ConsistentCatalogIsBijection(ReasonTokens, ReasonsApi);
  }

  /** `isValid`: the token is one of the catalog's reasons. */
  predicate IsValidReason(token: string) {
    token in ReasonsMap
  }

  lemma IsValidReasonExact(token: string)
    ensures IsValidReason(token) <==> token in ReasonTokens
  {
  }

  /** `toWireForm`: the wire form sent for a valid token, which is the token
      upper-cased and is one of `reasonsApi`. */
  function ToWireForm(token: string): (w: string)
    requires IsValidReason(token)
    ensures w == ToUpperASCII(token)
    ensures w in ReasonsApi
  {
    CatalogConsistent();
    assert token in ReasonTokens;
    assert ReasonsMap[token] in ReasonsMap.Values;
    ReasonsMap[token]
  }

  /** Two valid tokens with the same wire form are the same token. */
  lemma ToWireFormInjective(a: string, b: string)
    requires IsValidReason(a) && IsValidReason(b)
    ensures ToWireForm(a) == ToWireForm(b) ==> a == b
  {
    CatalogConsistent();
  }

  /** The only catalog memberships the test file names: "off_topic" is a
      reason and "bad" is not. */
  lemma KnownMemberships()
    ensures IsValidReason("off_topic")
    ensures !IsValidReason("bad")
  {
    IsValidReasonExact("off_topic");
    IsValidReasonExact("bad");
  }

  /** "off_topic" goes on the wire as "OFF_TOPIC". */
  lemma OffTopicWireForm()
    ensures IsValidReason("off_topic") && ToWireForm("off_topic") == "OFF_TOPIC"
  {
    IsValidReasonExact("off_topic");
    UpperCasedBy("off_topic", "OFF_TOPIC");
  }
}
