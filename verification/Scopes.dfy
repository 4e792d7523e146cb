// OAuth scope strings (crates/userserver/src/routes/oidc.rs,
// crates/userserver/src/oidc/mod.rs). A requested scope is narrowed twice, once for
// the consent page and once for the posted form; both narrowings agree.

module Scopes {
  // ── whitespace ────────────────────────────────────────────────────────

  /** The Unicode White_Space property. */
  predicate IsSpace(c: char) {
    '\U{0009}' <= c <= '\U{000D}' || c == ' ' || c == '\U{0085}' || c == '\U{00A0}' || c == '\U{1680}' ||
    '\U{2000}' <= c <= '\U{200A}' || c == '\U{2028}' || c == '\U{2029}' || c == '\U{202F}' || c == '\U{205F}' || c == '\U{3000}'
  }

  predicate IsWord(w: string) { w != "" && forall i :: 0 <= i < |w| ==> !IsSpace(w[i]) }

  /** The word read so far, if any. */
  function Flush(cur: string): seq<string> { if cur == "" then [] else [cur] }

  /** `split_whitespace`, with `cur` the part of a word already read. */
  function Split(s: string, cur: string): seq<string>
    decreases |s|
  {
    if s == "" then Flush(cur)
    else if IsSpace(s[0]) then Flush(cur) + Split(s[1..], "")
    else Split(s[1..], cur + [s[0]])
  }

  function Words(s: string): seq<string> { Split(s, "") }

  function Join(ws: seq<string>): string {
    if ws == [] then "" else if |ws| == 1 then ws[0] else ws[0] + " " + Join(ws[1..])
  }

  predicate AllWords(ws: seq<string>) { forall i :: 0 <= i < |ws| ==> IsWord(ws[i]) }

  lemma {:induction false} SplitWord(w: string, cur: string, rest: string)
    requires forall i :: 0 <= i < |w| ==> !IsSpace(w[i])
    ensures Split(w + rest, cur) == Split(rest, cur + w)
    decreases |w|
  {
    if w == "" {
      assert w + rest == rest && cur + w == cur;
    } else {
      assert (w + rest)[1..] == w[1..] + rest && cur + [w[0]] + w[1..] == cur + w;
      SplitWord(w[1..], cur + [w[0]], rest);
    }
  }

  /** Joining words and splitting the text again gives the words back. */
  lemma {:induction false} JoinSplits(ws: seq<string>)
    requires AllWords(ws)
    ensures Words(Join(ws)) == ws
  {
    if |ws| == 1 {
      assert ws[0] + "" == ws[0] && "" + ws[0] == ws[0];
      SplitWord(ws[0], "", "");
    } else if |ws| > 1 {
      var rest := " " + Join(ws[1..]);
      assert ws[0] + " " + Join(ws[1..]) == ws[0] + rest && rest[1..] == Join(ws[1..]) && "" + ws[0] == ws[0];
      SplitWord(ws[0], "", rest);
      JoinSplits(ws[1..]);
    }
  }

  lemma {:induction false} SplitGivesWords(s: string, cur: string)
    requires forall i :: 0 <= i < |cur| ==> !IsSpace(cur[i])
    ensures AllWords(Split(s, cur))
    decreases |s|
  {
    if s != "" {
      SplitGivesWords(s[1..], if IsSpace(s[0]) then "" else cur + [s[0]]);
    }
  }

  method SplitWhitespace(s: string) returns (ws: seq<string>)
    ensures ws == Words(s)
  {
    ws := [];
    var cur := "";
    for i := 0 to |s|
      invariant ws + Split(s[i..], cur) == Words(s)
    {
      assert s[i..][1..] == s[i + 1..];
      if !IsSpace(s[i]) {
        cur := cur + [s[i]];
      } else {
        if cur != "" {
          ws := ws + [cur];
        }
        cur := "";
      }
    }
    assert s[|s|..] == "";
    if cur != "" {
      ws := ws + [cur];
    }
  }

  // ── narrowing ─────────────────────────────────────────────────────────

  const KNOWN: seq<string> := ["openid", "profile", "email", "bscp:links"]

  function Kept(ws: seq<string>, known: seq<string>, allow: seq<string>): seq<string> {
    if ws == [] then []
    else (if ws[0] in known && ws[0] in allow then [ws[0]] else []) + Kept(ws[1..], known, allow)
  }

  /** `dedup`: drop a word that repeats its predecessor. */
  function Dedup(ws: seq<string>): seq<string> {
    if |ws| <= 1 then ws
    else if ws[0] == ws[1] then Dedup(ws[1..])
    else [ws[0]] + Dedup(ws[1..])
  }

  function WithOpenid(ws: seq<string>): seq<string> { if "openid" in ws then ws else ["openid"] + ws }

  function Narrowed(ws: seq<string>, allow: seq<string>): seq<string> { Dedup(WithOpenid(Kept(ws, KNOWN, allow))) }

  function EffectiveScope(requested: string, allowed: string): string { Join(Narrowed(Words(requested), Words(allowed))) }

  method KeepKnown(ws: seq<string>, known: seq<string>, allow: seq<string>) returns (out: seq<string>)
    ensures out == Kept(ws, known, allow)
  {
    out := [];
    for i := 0 to |ws|
      invariant out + Kept(ws[i..], known, allow) == Kept(ws, known, allow)
    {
      assert ws[i..][1..] == ws[i + 1..];
      if ws[i] in known && ws[i] in allow {
        out := out + [ws[i]];
      }
    }
    assert ws[|ws|..] == [];
  }

  method Unique(ws: seq<string>) returns (out: seq<string>)
    ensures out == Dedup(ws)
  {
    out := [];
    for i := 0 to |ws|
      invariant out + Dedup(ws[i..]) == Dedup(ws)
    {
      assert ws[i..][1..] == ws[i + 1..];
      if i + 1 == |ws| || ws[i] != ws[i + 1] {
        out := out + [ws[i]];
      }
    }
    assert ws[|ws|..] == [];
  }

  /** `effective_scope`. */
  method NarrowScope(requested: string, allowed: string) returns (scope: string)
    ensures scope == EffectiveScope(requested, allowed)
  {
    var allow := SplitWhitespace(allowed);
    var ws := SplitWhitespace(requested);
    var out := KeepKnown(ws, KNOWN, allow);
    if "openid" !in out {
      out := ["openid"] + out;
    }
    out := Unique(out);
    scope := JoinWords(out);
  }

  method JoinWords(ws: seq<string>) returns (s: string)
    ensures s == Join(ws)
  {
    s := "";
    for i := 0 to |ws|
      invariant s + (if i > 0 && i < |ws| then " " else "") + Join(ws[i..]) == Join(ws)
    {
      assert ws[i..][1..] == ws[i + 1..];
      if i > 0 {
        s := s + " ";
      }
      s := s + ws[i];
    }
    assert ws[|ws|..] == [];
  }

  // ── laws ──────────────────────────────────────────────────────────────

  lemma {:induction false} KeptMember(ws: seq<string>, known: seq<string>, allow: seq<string>, x: string)
    ensures x in Kept(ws, known, allow) <==> x in ws && x in known && x in allow
  {
    if ws != [] {
      assert ws == [ws[0]] + ws[1..];
      KeptMember(ws[1..], known, allow, x);
    }
  }

  lemma {:induction false} DedupMember(ws: seq<string>, x: string)
    ensures x in Dedup(ws) <==> x in ws
  {
    if |ws| > 1 {
      assert ws == [ws[0]] + ws[1..];
      DedupMember(ws[1..], x);
    }
  }

  predicate NoRepeat(ws: seq<string>) { forall i :: 0 < i < |ws| ==> ws[i - 1] != ws[i] }

  lemma {:induction false} DedupNoRepeat(ws: seq<string>)
    ensures NoRepeat(Dedup(ws)) && (ws != [] ==> Dedup(ws) != [] && Dedup(ws)[0] == ws[0])
  {
    if |ws| > 1 { DedupNoRepeat(ws[1..]); }
  }

  lemma {:induction false} DedupStable(ws: seq<string>)
    requires NoRepeat(ws)
    ensures Dedup(ws) == ws
  {
    if |ws| > 1 {
      assert ws[0] != ws[1];
      assert forall i :: 0 < i < |ws[1..]| ==> ws[1..][i - 1] == ws[i] && ws[1..][i] == ws[i + 1];
      DedupStable(ws[1..]);
    }
  }

  /** Filtering a list whose words all pass keeps it. */
  lemma {:induction false} KeptAll(ws: seq<string>, known: seq<string>, allow: seq<string>)
    requires forall x :: x in ws ==> x in known && x in allow
    ensures Kept(ws, known, allow) == ws
  {
    if ws != [] { KeptAll(ws[1..], known, allow); }
  }

  /**
   * A narrowed scope has openid in it; beyond that, exactly the requested words that
   * are known and allowed.
   */
  lemma NarrowedMember(ws: seq<string>, allow: seq<string>, x: string)
    ensures x in Narrowed(ws, allow) <==> x == "openid" || (x in ws && x in KNOWN && x in allow)
  {
    KeptMember(ws, KNOWN, allow, x);
    KeptMember(ws, KNOWN, allow, "openid");
    DedupMember(WithOpenid(Kept(ws, KNOWN, allow)), x);
  }

  lemma NarrowedWords(ws: seq<string>, allow: seq<string>)
    ensures AllWords(Narrowed(ws, allow))
  {
    assert AllWords(KNOWN);
    forall i | 0 <= i < |Narrowed(ws, allow)| ensures IsWord(Narrowed(ws, allow)[i]) {
      NarrowedMember(ws, allow, Narrowed(ws, allow)[i]);
      assert IsWord("openid") by { assert KNOWN[0] == "openid"; }
    }
  }

  /** Narrowing a narrowed list changes nothing. */
  lemma NarrowedTwice(ws: seq<string>, allow: seq<string>)
    ensures Narrowed(Narrowed(ws, allow), allow) == Narrowed(ws, allow)
  {
    var out := Narrowed(ws, allow);
    var kept := Kept(ws, KNOWN, allow);
    DedupNoRepeat(WithOpenid(kept));
    forall x ensures x in out <==> x == "openid" || (x in ws && x in KNOWN && x in allow) { NarrowedMember(ws, allow, x); }
    if "openid" in allow {
      KeptAll(out, KNOWN, allow);
      DedupStable(out);
    } else {
      KeptMember(ws, KNOWN, allow, "openid");
      DedupOpenid(kept);
      DropOpenid(Dedup(kept), ws, allow);
      DedupStable(out);
    }
  }

  /** Without openid among the kept words it comes first, and dedup works on the rest. */
  lemma DedupOpenid(kept: seq<string>)
    requires "openid" !in kept
    ensures Dedup(["openid"] + kept) == ["openid"] + Dedup(kept)
  {
  }

  lemma DropOpenid(rest: seq<string>, ws: seq<string>, allow: seq<string>)
    requires "openid" !in allow && rest == Dedup(Kept(ws, KNOWN, allow))
    ensures Kept(["openid"] + rest, KNOWN, allow) == rest && "openid" !in rest
  {
    forall x ensures x in rest <==> x in ws && x in KNOWN && x in allow {
      DedupMember(Kept(ws, KNOWN, allow), x);
      KeptMember(ws, KNOWN, allow, x);
    }
    KeptAll(rest, KNOWN, allow);
    assert (["openid"] + rest)[1..] == rest;
  }

  /**
   * The scope shown on the consent page, posted back as text and narrowed again,
   * is the scope that is stored: narrowing is idempotent through the text form.
   */
  lemma ConsentPageAgrees(requested: string, allowed: string)
    ensures EffectiveScope(EffectiveScope(requested, allowed), allowed) == EffectiveScope(requested, allowed)
  {
    NarrowedWords(Words(requested), Words(allowed));
    JoinSplits(Narrowed(Words(requested), Words(allowed)));
    NarrowedTwice(Words(requested), Words(allowed));
  }

  /** `scope_has`. */
  predicate ScopeHas(scope: string, want: string) { want in Words(scope) }

  /** What a narrowed scope grants. */
  lemma EffectiveScopeMember(requested: string, allowed: string, x: string)
    ensures ScopeHas(EffectiveScope(requested, allowed), x) <==>
              x == "openid" || (ScopeHas(requested, x) && x in KNOWN && ScopeHas(allowed, x))
  {
    NarrowedWords(Words(requested), Words(allowed));
    JoinSplits(Narrowed(Words(requested), Words(allowed)));
    NarrowedMember(Words(requested), Words(allowed), x);
  }
}
