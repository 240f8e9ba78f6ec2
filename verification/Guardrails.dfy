/** Content screening: substring patterns over the joined text of a request. */
module Guardrails {
  import opened Json

  datatype Config = Config(enabled: bool, blocked: seq<string>, allowed: seq<string>, maxChars: nat)

  datatype Action = Allow | BlockLength | BlockPattern(pattern: string)

  /** Lowercasing character by character. */
  function Lower(lower: char -> char, s: string): (r: string)
    ensures |r| == |s| && forall i :: 0 <= i < |s| ==> r[i] == lower(s[i])
  {
    seq(|s|, i requires 0 <= i < |s| => lower(s[i]))
  }

  predicate OccursAt(s: string, p: string, i: int) {
    0 <= i <= |s| - |p| && s[i..i + |p|] == p
  }

  predicate Contains(s: string, p: string) {
    exists i :: 0 <= i <= |s| && OccursAt(s, p, i)
  }

  predicate AnyOccurs(lower: char -> char, content: string, patterns: seq<string>) {
    exists k :: 0 <= k < |patterns| && Contains(Lower(lower, content), Lower(lower, patterns[k]))
  }

  predicate TooLong(cfg: Config, content: string) {
    cfg.maxChars > 0 && |content| > cfg.maxChars
  }

  /** Whether the text is refused. */
  predicate Blocked(lower: char -> char, cfg: Config, content: string) {
    cfg.enabled
    && (TooLong(cfg, content)
        || (AnyOccurs(lower, content, cfg.blocked) && !AnyOccurs(lower, content, cfg.allowed)))
  }

  /** `p` is the first of the patterns that occurs. */
  predicate FirstMatch(lower: char -> char, content: string, patterns: seq<string>, p: string) {
    exists k :: 0 <= k < |patterns| && patterns[k] == p && Contains(Lower(lower, content), Lower(lower, patterns[k]))
                && forall j :: 0 <= j < k ==> !Contains(Lower(lower, content), Lower(lower, patterns[j]))
  }

  method Check(lower: char -> char, cfg: Config, content: string) returns (action: Action)
    ensures action == Allow <==> !Blocked(lower, cfg, content)
    ensures !cfg.enabled ==> action == Allow
    ensures action.BlockLength? <==> cfg.enabled && cfg.maxChars > 0 && |content| > cfg.maxChars
    ensures action.BlockPattern? ==> FirstMatch(lower, content, cfg.blocked, action.pattern)
  {
    if !cfg.enabled {
      return Allow;
    }
    if cfg.maxChars > 0 && |content| > cfg.maxChars {
      return BlockLength;
    }
    var contentLower := Lower(lower, content);
    for i := 0 to |cfg.blocked|
      invariant forall k :: 0 <= k < i ==> !Contains(contentLower, Lower(lower, cfg.blocked[k]))
    {
      if Contains(contentLower, Lower(lower, cfg.blocked[i])) {
        if AnyOccurs(lower, content, cfg.allowed) {
          return Allow;
        }
        return BlockPattern(cfg.blocked[i]);
      }
    }
    return Allow;
  }

  /** An occurrence is a cut of the text around the pattern. */
  lemma ContainsIff(s: string, p: string)
    ensures Contains(s, p) <==> exists a, b :: s == a + p + b
  {
    if Contains(s, p) {
      var i :| 0 <= i <= |s| && OccursAt(s, p, i);
      assert s == s[..i] + p + s[i + |p|..];
    }
    if a, b :| s == a + p + b {
      assert OccursAt(s, p, |a|);
    }
  }

  // ---- Joined messages ----

  /** Each text followed by a newline. */
  function Joined(texts: seq<string>): string {
    if texts == [] then "" else texts[0] + "\n" + Joined(texts[1..])
  }

  predicate SomeContains(texts: seq<string>, p: string) {
    exists k :: 0 <= k < |texts| && Contains(texts[k], p)
  }

  lemma NewlineInside(s: string, p: string, i: int, j: int)
    requires OccursAt(s, p, i) && i <= j < i + |p| && s[j] == '\n'
    ensures '\n' in p
  {
    assert p[j - i] == s[i..i + |p|][j - i];
  }

  /** An occurrence in the middle part of a longer text. */
  lemma OccursInside(a: string, s: string, b: string, p: string, i: int)
    requires 0 <= i <= |s| - |p|
    ensures OccursAt(a + s + b, p, |a| + i) <==> OccursAt(s, p, i)
  {
    assert (a + s + b)[|a| + i..|a| + i + |p|] == s[i..i + |p|];
  }

  lemma ContainsInside(a: string, s: string, b: string, p: string)
    requires Contains(s, p)
    ensures Contains(a + s + b, p)
  {
    var i :| 0 <= i <= |s| && OccursAt(s, p, i);
    OccursInside(a, s, b, p, i);
  }

  lemma OneSide(a: string, b: string, p: string)
    requires p != "" && '\n' !in p && Contains(a + "\n" + b, p)
    ensures Contains(a, p) || Contains(b, p)
  {
    var s := a + "\n" + b;
    var i :| 0 <= i <= |s| && OccursAt(s, p, i);
    assert s == "" + a + ("\n" + b) && s == (a + "\n") + b + "";
    if i + |p| <= |a| {
      OccursInside("", a, "\n" + b, p, i);
    } else if |a| < i {
      OccursInside(a + "\n", b, "", p, i - |a| - 1);
    } else {
      NewlineInside(s, p, i, |a|);
    }
  }

  /** An occurrence of a pattern without newlines lies on one side of a newline. */
  lemma ContainsAcross(a: string, b: string, p: string)
    requires p != "" && '\n' !in p
    ensures Contains(a + "\n" + b, p) <==> Contains(a, p) || Contains(b, p)
  {
    var s := a + "\n" + b;
    assert s == "" + a + ("\n" + b) && s == (a + "\n") + b + "";
    if Contains(s, p) { OneSide(a, b, p); }
    if Contains(a, p) { ContainsInside("", a, "\n" + b, p); }
    if Contains(b, p) { ContainsInside(a + "\n", b, "", p); }
  }

  lemma {:induction false} ContainsJoined(texts: seq<string>, p: string)
    requires p != "" && '\n' !in p
    ensures Contains(Joined(texts), p) <==> SomeContains(texts, p)
  {
    if texts != [] {
      ContainsJoined(texts[1..], p);
      ContainsAcross(texts[0], Joined(texts[1..]), p);
      assert forall k :: 1 <= k < |texts| ==> texts[k] == texts[1..][k - 1];
      if SomeContains(texts[1..], p) {
        var k :| 0 <= k < |texts[1..]| && Contains(texts[1..][k], p);
        assert Contains(texts[k + 1], p);
      }
    }
  }

  /** A longer pattern cannot occur. */
  lemma TooShort(s: string, p: string)
    requires |s| < |p|
    ensures !Contains(s, p)
  {
  }

  /** Joining never creates or hides an occurrence, whatever the texts, exactly
      when the pattern is non-empty and has no newline. */
  lemma JoiningHarmlessIff(p: string)
    ensures (forall texts :: Contains(Joined(texts), p) <==> SomeContains(texts, p))
            <==> p != "" && '\n' !in p
  {
    if p != "" && '\n' !in p {
      forall texts ensures Contains(Joined(texts), p) <==> SomeContains(texts, p) {
        ContainsJoined(texts, p);
      }
    } else if p == "" {
      assert OccursAt("", p, 0);
      assert Contains(Joined([]), p) && !SomeContains([], p);
    } else {
      var i :| 0 <= i < |p| && p[i] == '\n';
      var texts := [p[..i], p[i + 1..]];
      assert texts[1..][1..] == [];
      assert Joined(texts[1..]) == p[i + 1..] + "\n";
      assert Joined(texts) == p + "\n";
      assert OccursAt(p + "\n", p, 0);
      TooShort(texts[0], p);
      TooShort(texts[1], p);
      assert Contains(Joined(texts), p) && !SomeContains(texts, p);
    }
  }

  // ---- The verdict on a request ----

  /** The lowercasing fixes newlines and creates none. */
  ghost predicate KeepsNewlines(lower: char -> char) {
    forall c :: lower(c) == '\n' <==> c == '\n'
  }

  predicate PlainPatterns(patterns: seq<string>) {
    forall k :: 0 <= k < |patterns| ==> patterns[k] != "" && '\n' !in patterns[k]
  }

  function LowerAll(lower: char -> char, texts: seq<string>): (r: seq<string>)
    ensures |r| == |texts| && forall i :: 0 <= i < |texts| ==> r[i] == Lower(lower, texts[i])
  {
    seq(|texts|, i requires 0 <= i < |texts| => Lower(lower, texts[i]))
  }

  lemma {:induction false} LowerJoined(lower: char -> char, texts: seq<string>)
    requires KeepsNewlines(lower)
    ensures Lower(lower, Joined(texts)) == Joined(LowerAll(lower, texts))
  {
    if texts != [] {
      LowerJoined(lower, texts[1..]);
      assert LowerAll(lower, texts)[1..] == LowerAll(lower, texts[1..]);
      assert Lower(lower, texts[0] + "\n" + Joined(texts[1..])) ==
             Lower(lower, texts[0]) + "\n" + Lower(lower, Joined(texts[1..]));
    }
  }

  /** Some single text contains some pattern, ignoring case. */
  predicate AnyInSome(lower: char -> char, texts: seq<string>, patterns: seq<string>) {
    exists t, p :: t in texts && p in patterns && Contains(Lower(lower, t), Lower(lower, p))
  }

  lemma AnyOccursJoined(lower: char -> char, texts: seq<string>, patterns: seq<string>)
    requires KeepsNewlines(lower) && PlainPatterns(patterns)
    ensures AnyOccurs(lower, Joined(texts), patterns) <==> AnyInSome(lower, texts, patterns)
  {
    var all := LowerAll(lower, texts);
    LowerJoined(lower, texts);
    forall k | 0 <= k < |patterns|
      ensures Contains(Lower(lower, Joined(texts)), Lower(lower, patterns[k])) <==> SomeContains(all, Lower(lower, patterns[k]))
    {
      ContainsJoined(all, Lower(lower, patterns[k]));
    }
    if AnyOccurs(lower, Joined(texts), patterns) {
      var k :| 0 <= k < |patterns| && Contains(Lower(lower, Joined(texts)), Lower(lower, patterns[k]));
      var i :| 0 <= i < |all| && Contains(all[i], Lower(lower, patterns[k]));
      assert texts[i] in texts && patterns[k] in patterns;
    }
    if AnyInSome(lower, texts, patterns) {
      var t, p :| t in texts && p in patterns && Contains(Lower(lower, t), Lower(lower, p));
      var i :| 0 <= i < |texts| && texts[i] == t;
      var k :| 0 <= k < |patterns| && patterns[k] == p;
      assert Contains(all[i], Lower(lower, patterns[k]));
    }
  }

  /** With plain patterns a request is refused exactly when it is too long in
      all, or some single text contains a blocked pattern and no single text an
      allowed one. */
  lemma RequestVerdict(lower: char -> char, cfg: Config, texts: seq<string>)
    requires KeepsNewlines(lower) && PlainPatterns(cfg.blocked) && PlainPatterns(cfg.allowed) && cfg.enabled
    ensures Blocked(lower, cfg, Joined(texts)) <==>
            TooLong(cfg, Joined(texts))
            || (AnyInSome(lower, texts, cfg.blocked) && !AnyInSome(lower, texts, cfg.allowed))
  {
    AnyOccursJoined(lower, texts, cfg.blocked);
    AnyOccursJoined(lower, texts, cfg.allowed);
  }

  lemma {:induction false} JoinedAppend(a: seq<string>, b: seq<string>)
    ensures Joined(a + b) == Joined(a) + Joined(b)
  {
    if a == [] {
      assert a + b == b;
    } else {
      assert (a + b)[1..] == a[1..] + b;
      JoinedAppend(a[1..], b);
    }
  }

  lemma RemoveOne(b: seq<string>, i: nat)
    requires i < |b|
    ensures var rest := b[..i] + b[i + 1..];
            multiset(rest) == multiset(b) - multiset{b[i]} && |Joined(b)| == |Joined(rest)| + |b[i]| + 1
  {
    var tail := [b[i]] + b[i + 1..];
    assert b == b[..i] + tail && tail[1..] == b[i + 1..];
    JoinedAppend(b[..i], b[i + 1..]);
    JoinedAppend(b[..i], tail);
  }

  lemma {:induction false} JoinedLengthPermuted(a: seq<string>, b: seq<string>)
    requires multiset(a) == multiset(b)
    ensures |Joined(a)| == |Joined(b)|
  {
    if a == [] {
      assert |multiset(b)| == |b| == 0;
    } else {
      assert a[0] in multiset(b);
      var i :| 0 <= i < |b| && b[i] == a[0];
      assert a[..0] + a[0 + 1..] == a[1..];
      RemoveOne(a, 0);
      RemoveOne(b, i);
      JoinedLengthPermuted(a[1..], b[..i] + b[i + 1..]);
    }
  }

  /** The verdict does not depend on the order of messages or of patterns. */
  lemma VerdictOrderFree(lower: char -> char, cfg: Config, cfg': Config, texts: seq<string>, texts': seq<string>)
    requires KeepsNewlines(lower) && PlainPatterns(cfg.blocked) && PlainPatterns(cfg.allowed)
    requires multiset(texts) == multiset(texts') && cfg'.enabled == cfg.enabled && cfg'.maxChars == cfg.maxChars
    requires multiset(cfg.blocked) == multiset(cfg'.blocked) && multiset(cfg.allowed) == multiset(cfg'.allowed)
    ensures Blocked(lower, cfg, Joined(texts)) == Blocked(lower, cfg', Joined(texts'))
  {
    if cfg.enabled {
      SameMembers(texts, texts');
      SameMembers(cfg.blocked, cfg'.blocked);
      SameMembers(cfg.allowed, cfg'.allowed);
      assert forall k :: 0 <= k < |cfg'.blocked| ==> cfg'.blocked[k] in cfg.blocked;
      assert forall k :: 0 <= k < |cfg'.allowed| ==> cfg'.allowed[k] in cfg.allowed;
      RequestVerdict(lower, cfg, texts);
      RequestVerdict(lower, cfg', texts');
      JoinedLengthPermuted(texts, texts');
    }
  }

  lemma SameMembers(a: seq<string>, b: seq<string>)
    requires multiset(a) == multiset(b)
    ensures forall x :: x in a <==> x in b
  {
    assert forall x :: x in a <==> x in multiset(a);
    assert forall x :: x in b <==> x in multiset(b);
  }

  // ---- Bodies ----

  function Field(j: Json, k: string): Json {
    if j.Obj? && k in j.fields then j.fields[k] else Null
  }

  function Items(j: Json): seq<Json> {
    if j.Arr? then j.items else []
  }

  /** The string contents, in order, of the given values; others are skipped. */
  function Texts(items: seq<Json>, pick: Json -> Json): seq<string> {
    if items == [] then []
    else (if pick(items[0]).Str? then [pick(items[0]).s] else []) + Texts(items[1..], pick)
  }

  function RequestText(j: Json): Json { Field(j, "content") }
  function ResponseText(j: Json): Json { Field(Field(j, "message"), "content") }

  /** The texts are those of the items in order, one for each item that has one. */
  lemma {:induction false} TextsInOrder(a: seq<Json>, b: seq<Json>, pick: Json -> Json)
    ensures Texts(a + b, pick) == Texts(a, pick) + Texts(b, pick)
  {
    if a == [] {
      assert a + b == b;
    } else {
      assert (a + b)[1..] == a[1..] + b;
      TextsInOrder(a[1..], b, pick);
    }
  }

  lemma {:induction false} TextsMembers(items: seq<Json>, pick: Json -> Json, t: string)
    ensures t in Texts(items, pick) <==> exists i :: 0 <= i < |items| && pick(items[i]) == Str(t)
  {
    if items != [] {
      var rest := items[1..];
      TextsMembers(rest, pick, t);
      assert forall i :: 1 <= i < |items| ==> items[i] == rest[i - 1];
      if t in Texts(rest, pick) {
        var i :| 0 <= i < |rest| && pick(rest[i]) == Str(t);
        assert pick(items[i + 1]) == Str(t);
      }
      if i :| 0 <= i < |items| && pick(items[i]) == Str(t) {
        assert i > 0 ==> pick(rest[i - 1]) == Str(t);
      }
    }
  }

  /** `t` is the content of one of the messages of the body. */
  predicate RequestSays(body: Json, t: string) {
    && body.Obj? && "messages" in body.fields && body.fields["messages"].Arr?
    && exists m :: m in body.fields["messages"].items && m.Obj? && "content" in m.fields && m.fields["content"] == Str(t)
  }

  /** `t` is the content of the message of one of the choices of the body. */
  predicate ResponseSays(body: Json, t: string) {
    && body.Obj? && "choices" in body.fields && body.fields["choices"].Arr?
    && exists m :: m in body.fields["choices"].items && m.Obj? && "message" in m.fields && m.fields["message"].Obj?
                   && "content" in m.fields["message"].fields && m.fields["message"].fields["content"] == Str(t)
  }

  function RequestTexts(body: Json): seq<string> { Texts(Items(Field(body, "messages")), RequestText) }
  function ResponseTexts(body: Json): seq<string> { Texts(Items(Field(body, "choices")), ResponseText) }

  /** What is screened: the string contents of the messages, or of the choices, and nothing else. */
  lemma ScreenedTexts(body: Json, t: string)
    ensures t in RequestTexts(body) <==> RequestSays(body, t)
    ensures t in ResponseTexts(body) <==> ResponseSays(body, t)
  {
    var messages, choices := Items(Field(body, "messages")), Items(Field(body, "choices"));
    TextsMembers(messages, RequestText, t);
    TextsMembers(choices, ResponseText, t);
    if RequestSays(body, t) {
      var m :| m in messages && m.Obj? && "content" in m.fields && m.fields["content"] == Str(t);
      var i :| 0 <= i < |messages| && messages[i] == m;
      assert RequestText(messages[i]) == Str(t);
    }
    if ResponseSays(body, t) {
      var m :| m in choices && ResponseText(m) == Str(t);
      var i :| 0 <= i < |choices| && choices[i] == m;
    }
  }

  /** Characters in all, with one newline for each text. */
  function TotalLength(texts: seq<string>): nat {
    if texts == [] then 0 else |texts[0]| + 1 + TotalLength(texts[1..])
  }

  lemma {:induction false} JoinedLength(texts: seq<string>)
    ensures |Joined(texts)| == TotalLength(texts)
  {
    if texts != [] { JoinedLength(texts[1..]); }
  }

  /** Some text that the body says can be cut around one of the patterns, ignoring case. */
  ghost predicate SaysAny(lower: char -> char, says: string -> bool, patterns: seq<string>) {
    exists t, p, a, b :: says(t) && p in patterns && Lower(lower, t) == a + Lower(lower, p) + b
  }

  lemma AnyInSomeIff(lower: char -> char, texts: seq<string>, says: string -> bool, patterns: seq<string>)
    requires forall t :: t in texts <==> says(t)
    ensures AnyInSome(lower, texts, patterns) <==> SaysAny(lower, says, patterns)
  {
    if AnyInSome(lower, texts, patterns) {
      var t, p :| t in texts && p in patterns && Contains(Lower(lower, t), Lower(lower, p));
      ContainsIff(Lower(lower, t), Lower(lower, p));
      assert says(t);
    }
    if SaysAny(lower, says, patterns) {
      var t, p, a, b :| says(t) && p in patterns && Lower(lower, t) == a + Lower(lower, p) + b;
      ContainsIff(Lower(lower, t), Lower(lower, p));
      assert t in texts;
    }
  }

  /** The verdict read off the texts a body says: with plain patterns it is
      refused exactly when they are too long in all, or one of them contains a
      blocked pattern and none an allowed one. */
  lemma BodyVerdict(lower: char -> char, cfg: Config, texts: seq<string>, says: string -> bool)
    requires KeepsNewlines(lower) && PlainPatterns(cfg.blocked) && PlainPatterns(cfg.allowed)
    requires forall t :: t in texts <==> says(t)
    ensures Blocked(lower, cfg, Joined(texts)) <==>
            cfg.enabled
            && ((cfg.maxChars > 0 && TotalLength(texts) > cfg.maxChars)
                || (SaysAny(lower, says, cfg.blocked) && !SaysAny(lower, says, cfg.allowed)))
  {
    JoinedLength(texts);
    if cfg.enabled {
      RequestVerdict(lower, cfg, texts);
      AnyInSomeIff(lower, texts, says, cfg.blocked);
      AnyInSomeIff(lower, texts, says, cfg.allowed);
    }
  }

  /** Accumulates each text and a newline in a buffer. */
  method Collect(items: seq<Json>, pick: Json -> Json) returns (combined: string)
    ensures combined == Joined(Texts(items, pick))
  {
    combined := "";
    for i := 0 to |items|
      invariant combined + Joined(Texts(items[i..], pick)) == Joined(Texts(items, pick))
    {
      CollectStep(combined, items[i..], pick);
      assert items[i..][1..] == items[i + 1..];
      var t := pick(items[i]);
      if t.Str? {
        combined := combined + t.s + "\n";
      }
    }
  }

  lemma CollectStep(combined: string, items: seq<Json>, pick: Json -> Json)
    requires items != []
    ensures var t, rest := pick(items[0]), Joined(Texts(items[1..], pick));
            combined + Joined(Texts(items, pick)) == (if t.Str? then combined + t.s + "\n" else combined) + rest
  {
    var t, rest := pick(items[0]), Texts(items[1..], pick);
    if t.Str? {
      JoinedCons(combined, t.s, rest);
    } else {
      assert [] + rest == rest;
    }
  }

  lemma JoinedCons(combined: string, t: string, rest: seq<string>)
    ensures combined + Joined([t] + rest) == (combined + t + "\n") + Joined(rest)
  {
    assert ([t] + rest)[1..] == rest;
    var j := Joined(rest);
    assert combined + (t + "\n" + j) == combined + t + "\n" + j;
  }

  method CheckRequest(lower: char -> char, cfg: Config, body: Json) returns (action: Action)
    ensures var content := Joined(RequestTexts(body));
            && (action == Allow <==> !Blocked(lower, cfg, content))
            && (action.BlockLength? <==> cfg.enabled && TooLong(cfg, content))
            && (action.BlockPattern? ==> FirstMatch(lower, content, cfg.blocked, action.pattern))
    ensures KeepsNewlines(lower) && PlainPatterns(cfg.blocked) && PlainPatterns(cfg.allowed) ==>
              (action == Allow <==>
                !cfg.enabled
                || (!(cfg.maxChars > 0 && TotalLength(RequestTexts(body)) > cfg.maxChars)
                    && (SaysAny(lower, t => RequestSays(body, t), cfg.blocked) ==>
                          SaysAny(lower, t => RequestSays(body, t), cfg.allowed))))
  {
    var combined := Collect(Items(Field(body, "messages")), RequestText);
    action := Check(lower, cfg, combined);
    if KeepsNewlines(lower) && PlainPatterns(cfg.blocked) && PlainPatterns(cfg.allowed) {
      forall t ensures t in RequestTexts(body) <==> RequestSays(body, t) { ScreenedTexts(body, t); }
      BodyVerdict(lower, cfg, RequestTexts(body), t => RequestSays(body, t));
    }
  }

  method CheckResponse(lower: char -> char, cfg: Config, body: Json) returns (action: Action)
    ensures var content := Joined(ResponseTexts(body));
            && (action == Allow <==> !Blocked(lower, cfg, content))
            && (action.BlockLength? <==> cfg.enabled && TooLong(cfg, content))
            && (action.BlockPattern? ==> FirstMatch(lower, content, cfg.blocked, action.pattern))
    ensures KeepsNewlines(lower) && PlainPatterns(cfg.blocked) && PlainPatterns(cfg.allowed) ==>
              (action == Allow <==>
                !cfg.enabled
                || (!(cfg.maxChars > 0 && TotalLength(ResponseTexts(body)) > cfg.maxChars)
                    && (SaysAny(lower, t => ResponseSays(body, t), cfg.blocked) ==>
                          SaysAny(lower, t => ResponseSays(body, t), cfg.allowed))))
  {
    var combined := Collect(Items(Field(body, "choices")), ResponseText);
    action := Check(lower, cfg, combined);
    if KeepsNewlines(lower) && PlainPatterns(cfg.blocked) && PlainPatterns(cfg.allowed) {
      forall t ensures t in ResponseTexts(body) <==> ResponseSays(body, t) { ScreenedTexts(body, t); }
      BodyVerdict(lower, cfg, ResponseTexts(body), t => ResponseSays(body, t));
    }
  }
}
