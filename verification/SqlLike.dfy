/** SQLite's LIKE operator as the stores use it: without an escape character, blind to the case of ASCII letters. */
module SqlLike {
  function Folded(c: char): char {
    if 'A' <= c <= 'Z' then c - 'A' + 'a' else c
  }

  predicate Fits(p: char, c: char) {
    p == '_' || Folded(p) == Folded(c)
  }

  predicate Like(pattern: string, s: string)
    decreases |pattern| + |s|
  {
    if pattern == "" then s == ""
    else if pattern[0] == '%' then Like(pattern[1..], s) || (s != "" && Like(pattern, s[1..]))
    else s != "" && Fits(pattern[0], s[0]) && Like(pattern[1..], s[1..])
  }

  lemma {:induction false} AnythingFits(s: string)
    ensures Like("%", s)
    decreases |s|
  {
    assert "%"[1..] == "";
    if s != "" {
      AnythingFits(s[1..]);
    }
  }

  /** A prefix pattern fits what agrees with the prefix up to letter case and underscores. */
  lemma {:induction false} LikePrefix(prefix: string, s: string)
    requires '%' !in prefix
    ensures Like(prefix + "%", s) <==> |prefix| <= |s| && forall i :: 0 <= i < |prefix| ==> Fits(prefix[i], s[i])
    decreases |prefix|
  {
    if prefix == "" {
      assert prefix + "%" == "%";
      AnythingFits(s);
    } else if s != "" {
      var rest := prefix[1..];
      assert prefix[0] in prefix && forall c :: c in rest ==> c in prefix;
      assert (prefix + "%")[1..] == rest + "%" && (prefix + "%")[0] == prefix[0];
      LikePrefix(rest, s[1..]);
      assert forall i :: 0 <= i < |rest| && i < |s| - 1 ==> rest[i] == prefix[i + 1] && s[1..][i] == s[i + 1];
      assert forall i :: 0 < i < |prefix| && i < |s| ==> prefix[i] == rest[i - 1] && s[i] == s[1..][i - 1];
    } else {
      assert (prefix + "%")[0] == prefix[0] && prefix[0] in prefix;
    }
  }

  /** A prefix without '%' also fits a text of another name exactly when the two differ only in case or under an underscore. */
  lemma {:induction false} FitsAnotherExactly(prefix: string, s: string)
    requires '%' !in prefix
    ensures Like(prefix + "%", s) && !(prefix <= s)
            <==> && |prefix| <= |s| && (forall i :: 0 <= i < |prefix| ==> Fits(prefix[i], s[i]))
                 && exists i :: 0 <= i < |prefix| && prefix[i] != s[i]
  {
    LikePrefix(prefix, s);
    if |prefix| <= |s| && forall i :: 0 <= i < |prefix| ==> prefix[i] == s[i] {
      assert s[..|prefix|] == prefix;
    }
  }

  // ------------------------------------------------------ when a pattern is exact

  predicate Fit(prefix: string, s: string) {
    Like(prefix + "%", s)
  }

  predicate Letter(c: char) {
    'a' <= c <= 'z' || 'A' <= c <= 'Z'
  }

  /** A character that fits nothing but itself. */
  predicate Literal(c: char) {
    c != '%' && c != '_' && !Letter(c)
  }

  predicate AllLiteral(s: string) {
    forall i :: 0 <= i < |s| ==> Literal(s[i])
  }

  /** Character by character, `s` is what `p` allows if each '%' stands for one character. */
  predicate Shape(p: string, s: string) {
    |p| == |s| && forall i :: 0 <= i < |p| ==> p[i] == '%' || Fits(p[i], s[i])
  }

  lemma {:induction false} ShapeFits(p: string, s: string, rest: string)
    requires Shape(p, s)
    ensures Fit(p, s + rest)
    decreases |p|
  {
    if p == "" {
      assert p + "%" == "%" && s + rest == rest;
      AnythingFits(rest);
    } else {
      var pattern, text := p + "%", s + rest;
      assert pattern[1..] == p[1..] + "%" && text[1..] == s[1..] + rest;
      ShapeFits(p[1..], s[1..], rest);
      assert Like(pattern[1..], text[1..]) && pattern[0] == p[0] && text[0] == s[0];
      if p[0] == '%' {
        assert Like(pattern, text[1..]);
      }
    }
  }

  lemma {:induction false} ShapeConcat(p: string, s: string, q: string, t: string)
    requires Shape(p, s) && Shape(q, t)
    ensures Shape(p + q, s + t)
  {
    var pq, st := p + q, s + t;
    forall i | 0 <= i < |pq|
      ensures pq[i] == '%' || Fits(pq[i], st[i])
    {
      if i >= |p| {
        assert pq[i] == q[i - |p|] && st[i] == t[i - |p|];
      }
    }
  }

  /** A text with a character that is not literal allows another one, which differs from it in one letter. */
  lemma {:induction false} Variant(p: string) returns (s: string)
    requires !AllLiteral(p)
    ensures Shape(p, s) && s != p && forall c :: c in s ==> c in p || Letter(c)
  {
    var i :| 0 <= i < |p| && !Literal(p[i]);
    var c: char := if 'a' <= p[i] <= 'z' then p[i] - 'a' + 'A' else if 'A' <= p[i] <= 'Z' then p[i] - 'A' + 'a' else 'x';
    assert c != p[i] && Letter(c) && (p[i] == '%' || Fits(p[i], c));
    s := p[i := c];
    assert s[i] != p[i];
  }

  lemma {:induction false} LiteralFitsItself(prefix: string, s: string)
    requires AllLiteral(prefix) && Fit(prefix, s)
    ensures prefix <= s
  {
    LikePrefix(prefix, s);
    assert forall i :: 0 <= i < |prefix| ==> Literal(prefix[i]) && prefix[i] == s[i];
  }

  /** For every prefix: its pattern fits only texts that start with it if and only if all its characters are literal. */
  lemma {:induction false} OnlyItselfExactly(prefix: string)
    ensures (forall s | Fit(prefix, s) :: prefix <= s) <==> AllLiteral(prefix)
  {
    if AllLiteral(prefix) {
      forall s | Fit(prefix, s)
        ensures prefix <= s
      {
        LiteralFitsItself(prefix, s);
      }
    } else {
      var s := Variant(prefix);
      ShapeFits(prefix, s, "");
      assert s + "" == s && Fit(prefix, s);
    }
  }

  /** Names without the separator are told apart by it. */
  lemma {:induction false} FirstPart(a: string, b: string, sep: char, s: string, t: string)
    requires sep !in a && sep !in b && a + [sep] + s <= b + [sep] + t
    ensures a == b && s <= t
  {
    var x, y := a + [sep] + s, b + [sep] + t;
    assert forall k :: 0 <= k < |a| ==> a[k] == x[k] == y[k];
    assert forall k :: 0 <= k < |b| ==> b[k] == y[k];
    assert x[|a|] == sep && y[|b|] == sep;
    assert s == x[|a| + 1..] && t == y[|b| + 1..];
  }

  /** A pattern that ends an id with a separator fits the entries of that id only, if and only if the id is literal. */
  lemma {:induction false} OwnEntriesExactly(head: string, id: string, sep: char)
    requires '%' !in head && Literal(sep) && sep !in id
    ensures (forall other: string, rest: string ::
               rest != "" && sep !in other && Fit(head + id + [sep], head + other + [sep] + rest) ==> other == id)
            <==> AllLiteral(id)
  {
    if AllLiteral(id) {
      forall other: string, rest: string | rest != "" && sep !in other && Fit(head + id + [sep], head + other + [sep] + rest)
        ensures other == id
      {
        OwnEntry(head, id, sep, other, rest);
      }
    } else {
      var other := Variant(id);
      assert Shape(head, head) && Shape([sep], [sep]);
      ShapeConcat(head, head, id, other);
      ShapeConcat(head + id, head + other, [sep], [sep]);
      ShapeFits(head + id + [sep], head + other + [sep], "u");
    }
  }

  lemma {:induction false} OwnEntry(head: string, id: string, sep: char, other: string, rest: string)
    requires '%' !in head && Literal(sep) && sep !in id && AllLiteral(id)
    requires sep !in other && Fit(head + id + [sep], head + other + [sep] + rest)
    ensures other == id
  {
    var prefix, s := head + id + [sep], head + other + [sep] + rest;
    var own, entry := id + [sep], other + [sep] + rest;
    assert forall c :: c in id ==> Literal(c);
    LikePrefix(prefix, s);
    assert s == head + entry;
    forall k | 0 <= k < |own|
      ensures k < |entry| && own[k] == entry[k]
    {
      assert prefix[|head| + k] == own[k] && s[|head| + k] == entry[k];
      assert Fits(prefix[|head| + k], s[|head| + k]) && Literal(own[k]);
    }
    assert own + "" <= entry;
    FirstPart(id, other, sep, "", rest);
  }

  // -------------------------------------------------------------- chats by name

  datatype ChatKey = ChatKey(tenant: string, app: string, chat: string)

  function ChatPrefix(k: ChatKey): string {
    k.tenant + "/" + k.app + "/" + k.chat + "/"
  }

  /** A pending task of `other` whose conversation is `rest` is cancelled with chat `k`. */
  predicate FitsSession(k: ChatKey, other: ChatKey, rest: string) {
    Fit(ChatPrefix(k), ChatPrefix(other) + rest)
  }

  predicate SlashFree(k: ChatKey) {
    '/' !in k.tenant && '/' !in k.app && '/' !in k.chat
  }

  predicate LiteralKey(k: ChatKey) {
    AllLiteral(k.tenant) && AllLiteral(k.app) && AllLiteral(k.chat)
  }

  lemma {:induction false} PrefixTellsChats(k: ChatKey, other: ChatKey, rest: string)
    requires SlashFree(k) && SlashFree(other) && ChatPrefix(k) <= ChatPrefix(other) + rest
    ensures k == other
  {
    var s, t := k.app + "/" + k.chat + "/", other.app + "/" + other.chat + "/" + rest;
    assert ChatPrefix(k) == k.tenant + ['/'] + s && ChatPrefix(other) + rest == other.tenant + ['/'] + t;
    FirstPart(k.tenant, other.tenant, '/', s, t);
    assert s == k.app + ['/'] + (k.chat + "/") && t == other.app + ['/'] + (other.chat + "/" + rest);
    FirstPart(k.app, other.app, '/', k.chat + "/", other.chat + "/" + rest);
    assert k.chat + ['/'] + "" == k.chat + "/" && other.chat + ['/'] + rest == other.chat + "/" + rest;
    FirstPart(k.chat, other.chat, '/', "", rest);
  }

  lemma {:induction false} OtherChatFits(k: ChatKey, other: ChatKey, rest: string)
    requires Shape(k.tenant, other.tenant) && Shape(k.app, other.app) && Shape(k.chat, other.chat)
    ensures FitsSession(k, other, rest)
  {
    assert Shape("/", "/");
    ShapeConcat(k.tenant, other.tenant, "/", "/");
    ShapeConcat(k.tenant + "/", other.tenant + "/", k.app, other.app);
    ShapeConcat(k.tenant + "/" + k.app, other.tenant + "/" + other.app, "/", "/");
    ShapeConcat(k.tenant + "/" + k.app + "/", other.tenant + "/" + other.app + "/", k.chat, other.chat);
    ShapeConcat(k.tenant + "/" + k.app + "/" + k.chat, other.tenant + "/" + other.app + "/" + other.chat, "/", "/");
    ShapeFits(ChatPrefix(k), ChatPrefix(other), rest);
  }

  lemma {:induction false} LiteralPrefix(k: ChatKey)
    requires LiteralKey(k)
    ensures AllLiteral(ChatPrefix(k))
  {
    assert forall c :: c in k.tenant || c in k.app || c in k.chat || c == '/' ==> Literal(c);
    forall i | 0 <= i < |ChatPrefix(k)|
      ensures Literal(ChatPrefix(k)[i])
    {
      var c := ChatPrefix(k)[i];
      assert c in k.tenant || c in k.app || c in k.chat || c == '/';
    }
  }

  /**
   Among chats whose ids hold no slash, revoking one reaches the tasks of that chat
   only, whatever their conversations, if and only if all characters of its three ids
   are literal.
   */
  lemma {:induction false} OnlyItsChatExactly(k: ChatKey)
    requires SlashFree(k)
    ensures (forall other: ChatKey, rest: string ::
               rest != "" && SlashFree(other) && FitsSession(k, other, rest) ==> other == k)
            <==> LiteralKey(k)
  {
    if LiteralKey(k) {
      LiteralPrefix(k);
      forall other: ChatKey, rest: string | rest != "" && SlashFree(other) && FitsSession(k, other, rest)
        ensures other == k
      {
        LiteralFitsItself(ChatPrefix(k), ChatPrefix(other) + rest);
        PrefixTellsChats(k, other, rest);
      }
    } else {
      var other := OtherChat(k);
      OtherChatFits(k, other, "u");
    }
  }

  lemma {:induction false} OtherChat(k: ChatKey) returns (other: ChatKey)
    requires SlashFree(k) && !LiteralKey(k)
    ensures SlashFree(other) && other != k
    ensures Shape(k.tenant, other.tenant) && Shape(k.app, other.app) && Shape(k.chat, other.chat)
  {
    if !AllLiteral(k.tenant) {
      var id := Variant(k.tenant);
      other := k.(tenant := id);
    } else if !AllLiteral(k.app) {
      var id := Variant(k.app);
      other := k.(app := id);
    } else {
      var id := Variant(k.chat);
      other := k.(chat := id);
    }
  }

  /** With slashes in ids no chat is safe: its prefix starts the sessions of a chat whose id goes on behind a slash. */
  lemma {:induction false} SlashReachesAnother(k: ChatKey, rest: string)
    ensures k.(chat := k.chat + "/d") != k && FitsSession(k, k.(chat := k.chat + "/d"), rest)
  {
    var other := k.(chat := k.chat + "/d");
    ShapeFits(ChatPrefix(k), ChatPrefix(k), "d/" + rest);
    assert ChatPrefix(other) + rest == ChatPrefix(k) + ("d/" + rest);
    assert |other.chat| > |k.chat|;
  }

  /** An underscore, a letter of the other case, and a percent sign that swallows two characters. */
  lemma {:induction false} RevocationFitsAnotherChat()
    ensures FitsSession(ChatKey("t", "a", "oc_1"), ChatKey("t", "a", "ocX1"), "u")
    ensures FitsSession(ChatKey("t", "a", "oc1"), ChatKey("t", "a", "OC1"), "u")
    ensures FitsSession(ChatKey("t", "a", "oc%1"), ChatKey("t", "a", "ocXY1"), "u")
  {
    assert ChatPrefix(ChatKey("t", "a", "oc_1")) == "t/a/oc_1/" && ChatPrefix(ChatKey("t", "a", "ocX1")) == "t/a/ocX1/";
    ShapeFits("t/a/oc_1/", "t/a/ocX1/", "u");
    assert ChatPrefix(ChatKey("t", "a", "oc1")) == "t/a/oc1/" && ChatPrefix(ChatKey("t", "a", "OC1")) == "t/a/OC1/";
    ShapeFits("t/a/oc1/", "t/a/OC1/", "u");
    PercentSwallowsTwo();
  }

  lemma {:induction false} PercentSwallowsTwo()
    ensures FitsSession(ChatKey("t", "a", "oc%1"), ChatKey("t", "a", "ocXY1"), "u")
  {
    ShapeFits("%1/", "Y1/", "u");
    var pattern, text := "%1/" + "%", "Y1/" + "u";
    assert ("X" + text)[1..] == text;
    assert Like(pattern, "X" + text);
    GoesOn("t/a/oc", pattern, "X" + text);
    assert ChatPrefix(ChatKey("t", "a", "oc%1")) + "%" == "t/a/oc" + pattern;
    assert ChatPrefix(ChatKey("t", "a", "ocXY1")) + "u" == "t/a/oc" + ("X" + text);
  }

  /** A common beginning without '%' changes nothing. */
  lemma {:induction false} GoesOn(start: string, pattern: string, s: string)
    requires '%' !in start && Like(pattern, s)
    ensures Like(start + pattern, start + s)
    decreases |start|
  {
    if start == "" {
      assert start + pattern == pattern && start + s == s;
    } else {
      assert start[0] in start && forall c :: c in start[1..] ==> c in start;
      assert (start + pattern)[1..] == start[1..] + pattern && (start + s)[1..] == start[1..] + s;
      GoesOn(start[1..], pattern, s);
    }
  }
}
