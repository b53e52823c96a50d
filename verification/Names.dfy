/** Resource names: DNS labels made from whatever a BMC calls itself. */
module Names {
  import opened Common

  // --- the specification ----------------------------------------------------

  predicate AlphaNum(c: char) {
    'a' <= c <= 'z' || '0' <= c <= '9'
  }

  /** The length of the run of letters and digits at the front. */
  function RunLength(s: string): (n: nat)
    ensures n <= |s|
    ensures forall i :: 0 <= i < n ==> AlphaNum(s[i])
    ensures n < |s| ==> !AlphaNum(s[n])
  {
    if s == "" || !AlphaNum(s[0]) then 0 else 1 + RunLength(s[1..])
  }

  /** The maximal runs of letters and digits, in order. */
  function Words(s: string): seq<string>
    decreases |s|
  {
    if s == "" then []
    else if !AlphaNum(s[0]) then Words(s[1..])
    else [s[..RunLength(s)]] + Words(s[RunLength(s)..])
  }

  function Dashed(words: seq<string>): string {
    if words == [] then "" else if |words| == 1 then words[0] else words[0] + "-" + Dashed(words[1..])
  }

  function TrimDashes(s: string): (t: string)
    ensures t <= s
    ensures t != "" ==> t[|t| - 1] != '-'
    ensures forall i :: |t| <= i < |s| ==> s[i] == '-'
    decreases |s|
  {
    if s == "" || s[|s| - 1] != '-' then s else TrimDashes(s[..|s| - 1])
  }

  const MAX_LABEL := 63

  function CutLabel(s: string): string {
    if |s| > MAX_LABEL then s[..MAX_LABEL] else s
  }

  /** The words of the lowercased name, dashed, cut to a label's length, no dash at the end. */
  function Sanitized(s: string): string {
    TrimDashes(CutLabel(Dashed(Words(Lower(s)))))
  }

  // --- labels ---------------------------------------------------------------

  /** RFC 1123 section 2.1 with the length of RFC 1035 section 2.3.4. */
  predicate IsLabel(s: string) {
    && 1 <= |s| <= MAX_LABEL
    && (forall i :: 0 <= i < |s| ==> AlphaNum(s[i]) || s[i] == '-')
    && AlphaNum(s[0]) && AlphaNum(s[|s| - 1])
  }

  /** No dash meets a dash before position `i`. */
  predicate Joined(s: string, i: int)
    requires 0 < i < |s|
  {
    AlphaNum(s[i - 1]) || AlphaNum(s[i])
  }

  /** Letters and digits with single dashes inside. */
  predicate Tidy(s: string) {
    && (forall i :: 0 <= i < |s| ==> AlphaNum(s[i]) || s[i] == '-')
    && (forall i :: 0 < i < |s| ==> Joined(s, i))
    && (s != "" ==> AlphaNum(s[0]) && AlphaNum(s[|s| - 1]))
  }

  /** A word at the front, and the separator behind it if anything follows. */
  lemma FrontWord(s: string)
    requires s != "" && AlphaNum(s[0])
    ensures var n := RunLength(s);
            n >= 1 && Words(s) == [s[..n]] + if n < |s| then Words(s[n + 1..]) else []
  {
    var n := RunLength(s);
    if n < |s| {
      assert s[n..][0] == s[n] && s[n..][1..] == s[n + 1..];
    } else {
      assert s[n..] == "";
    }
  }

  lemma OneWord(s: string)
    requires s != "" && RunLength(s) == |s|
    ensures Words(s) == [s]
  {
    FrontWord(s);
    assert s[..|s|] == s;
  }

  lemma DashedFront(word: string, words: seq<string>)
    ensures Dashed([word] + words) == if words == [] then word else word + "-" + Dashed(words)
  {
    assert ([word] + words)[1..] == words;
  }

  lemma TidyJoin(word: string, rest: string)
    requires word != "" && forall i :: 0 <= i < |word| ==> AlphaNum(word[i])
    requires Tidy(rest) && rest != ""
    ensures Tidy(word + "-" + rest)
  {
    var s := word + "-" + rest;
    assert forall i :: 0 <= i < |word| ==> s[i] == word[i];
    assert s[|word|] == '-';
    assert forall i :: |word| < i < |s| ==> s[i] == rest[i - |word| - 1];
    forall i | 0 < i < |s| ensures Joined(s, i) {
      if i > |word| + 1 { assert Joined(rest, i - |word| - 1); }
    }
  }

  lemma {:induction false} WordsTidy(s: string)
    ensures Tidy(Dashed(Words(s)))
    ensures Dashed(Words(s)) == "" <==> Words(s) == []
    ensures |Dashed(Words(s))| <= |s|
    decreases |s|
  {
    if s == "" {
    } else if !AlphaNum(s[0]) {
      WordsTidy(s[1..]);
    } else {
      var n := RunLength(s);
      FrontWord(s);
      if n < |s| {
        WordsTidy(s[n + 1..]);
        DashedFront(s[..n], Words(s[n + 1..]));
        if Words(s[n + 1..]) != [] { TidyJoin(s[..n], Dashed(Words(s[n + 1..]))); }
      }
    }
  }

  lemma CutTidy(s: string)
    requires Tidy(s)
    ensures var t := TrimDashes(CutLabel(s));
            Tidy(t) && (t == "" <==> s == "") && (t != "" ==> IsLabel(t)) && |t| <= |s|
  {
    var c := CutLabel(s);
    var t := TrimDashes(c);
    assert c <= s && t <= c;
    if s != "" {
      assert c[0] == s[0];
      forall i | 0 < i < |t| ensures Joined(t, i) {
        assert Joined(s, i);
      }
      if t != "" {
        assert t[|t| - 1] == s[|t| - 1];
      }
    }
  }

  predicate NothingSurvives(s: string) {
    forall i :: 0 <= i < |s| ==> !AlphaNum(LowerChar(s[i]))
  }

  lemma {:induction false} NoWords(s: string)
    ensures Words(s) == [] <==> forall i :: 0 <= i < |s| ==> !AlphaNum(s[i])
    decreases |s|
  {
    if s != "" && !AlphaNum(s[0]) {
      NoWords(s[1..]);
      assert forall i :: 1 <= i < |s| ==> s[i] == s[1..][i - 1];
    }
  }

  /** A sanitised name is a valid label, no longer than the name; it is empty exactly when
      the name has no letter and no digit. */
  lemma SanitizedIsLabel(s: string)
    ensures Sanitized(s) == "" <==> NothingSurvives(s)
    ensures Sanitized(s) != "" ==> IsLabel(Sanitized(s))
    ensures |Sanitized(s)| <= |s|
  {
    WordsTidy(Lower(s));
    CutTidy(Dashed(Words(Lower(s))));
    NoWords(Lower(s));
    assert forall i :: 0 <= i < |s| ==> Lower(s)[i] == LowerChar(s[i]);
  }

  lemma TidyTail(s: string, n: nat)
    requires Tidy(s) && 0 < n < |s| && !AlphaNum(s[n])
    ensures s[n] == '-' && n + 1 < |s| && Tidy(s[n + 1..])
  {
    var rest := s[n + 1..];
    assert n + 1 < |s| && Joined(s, n + 1);
    forall i | 0 < i < |rest| ensures Joined(rest, i) {
      assert Joined(s, i + n + 1);
    }
  }

  lemma AroundDash(s: string, n: nat)
    requires n < |s| && s[n] == '-'
    ensures s == s[..n] + "-" + s[n + 1..]
  {
  }

  lemma {:induction false} TidyWords(s: string)
    requires Tidy(s)
    ensures Dashed(Words(s)) == s
    decreases |s|
  {
    if s != "" {
      var n := RunLength(s);
      if n < |s| {
        FrontWord(s);
        TidyTail(s, n);
        TidyWords(s[n + 1..]);
        DashedFront(s[..n], Words(s[n + 1..]));
        AroundDash(s, n);
      } else {
        OneWord(s);
      }
    }
  }

  lemma LowerTidy(s: string)
    requires Tidy(s)
    ensures Lower(s) == s
  {
  }

  /** Sanitising twice changes nothing more. */
  lemma SanitizedIdempotent(s: string)
    ensures Sanitized(Sanitized(s)) == Sanitized(s)
  {
    var t := Sanitized(s);
    WordsTidy(Lower(s));
    CutTidy(Dashed(Words(Lower(s))));
    LowerTidy(t);
    TidyWords(t);
  }

  // --- what sanitising means ------------------------------------------------

  /** Lowercase letters and digits, by code point. */
  lemma AlphaNumExact(c: char)
    ensures AlphaNum(c) <==> 97 <= c as int <= 122 || 48 <= c as int <= 57
  {
  }

  /** The words of two texts with a separator between them are the words of the one and then
      of the other; a text of letters and digits alone is one word. */
  lemma {:induction false} WordsSplit(a: string, c: char, b: string)
    requires !AlphaNum(c)
    ensures Words(a + [c] + b) == Words(a) + Words(b)
    ensures a != "" && (forall i :: 0 <= i < |a| ==> AlphaNum(a[i])) ==> Words(a) == [a]
    decreases |a|
  {
    var s := a + [c] + b;
    if a == "" {
      assert s[0] == c && s[1..] == b;
      assert Words(a) + Words(b) == Words(b);
    } else if !AlphaNum(a[0]) {
      assert s[1..] == a[1..] + [c] + b;
      WordsSplit(a[1..], c, b);
    } else {
      var n := RunLength(a);
      RunAcross(a, c, b);
      if n < |a| {
        assert s[n..] == a[n..] + [c] + b && s[..n] == a[..n];
        WordsSplit(a[n..], c, b);
        assert [a[..n]] + (Words(a[n..]) + Words(b)) == ([a[..n]] + Words(a[n..])) + Words(b);
      } else {
        OneWord(a);
        assert s[n..] == [c] + b && s[n..][1..] == b && s[..n] == a;
      }
    }
  }

  lemma {:induction false} RunAcross(a: string, c: char, b: string)
    requires !AlphaNum(c)
    ensures RunLength(a + [c] + b) == RunLength(a)
    decreases |a|
  {
    if a != "" {
      assert (a + [c] + b)[1..] == a[1..] + [c] + b;
      RunAcross(a[1..], c, b);
    }
  }

  /** The sanitised name is the dashed words of the lowercased name, whole if they fit into 63
      characters, else their first 63, or 62 where a dash would be the last. */
  lemma SanitizedExact(s: string)
    ensures var dashed := Dashed(Words(Lower(s)));
            Sanitized(s) == if |dashed| <= 63 then dashed
                            else if dashed[62] == '-' then dashed[..62] else dashed[..63]
  {
    WordsTidy(Lower(s));
    var dashed := Dashed(Words(Lower(s)));
    if |dashed| > 63 {
      var cut := dashed[..63];
      if cut[62] == '-' {
        assert Joined(dashed, 62);
        assert cut[..62] == dashed[..62] && dashed[..62][61] == dashed[61];
      }
    }
  }

  // --- the code -------------------------------------------------------------

  lemma {:induction false} RunLengthSnoc(t: string, c: char)
    ensures RunLength(t + [c]) == if RunLength(t) == |t| && AlphaNum(c) then |t| + 1 else RunLength(t)
    decreases |t|
  {
    if t != "" {
      assert (t + [c])[1..] == t[1..] + [c];
      RunLengthSnoc(t[1..], c);
    }
  }

  /** One more character: a separator changes nothing, a letter or digit starts a word or
      extends the last one. */
  ghost predicate OneMore(t: string, c: char, words: seq<string>, words': seq<string>) {
    if !AlphaNum(c) then words' == words
    else if t == "" || !AlphaNum(t[|t| - 1]) then words' == words + [[c]]
    else words != [] && words' == words[..|words| - 1] + [words[|words| - 1] + [c]]
  }

  lemma OneMoreBehind(t: string, n: nat, c: char, word: string, words: seq<string>, words': seq<string>)
    requires n < |t| && OneMore(t[n..], c, words, words')
    ensures OneMore(t, c, [word] + words, [word] + words')
  {
    assert t[n..][|t[n..]| - 1] == t[|t| - 1];
    if words != [] {
      assert ([word] + words)[..|words|] == [word] + words[..|words| - 1];
    }
  }

  /** A word followed by one separator is still that word alone. */
  lemma WordThenSeparator(t: string, c: char)
    requires t != "" && RunLength(t) == |t| && !AlphaNum(c)
    ensures Words(t + [c]) == [t]
  {
    var u := t + [c];
    RunLengthSnoc(t, c);
    FrontWord(u);
    assert u[..|t|] == t && u[|t| + 1..] == "";
    assert Words("") == [];
  }

  lemma WordExtended(t: string, c: char)
    requires t != "" && RunLength(t) == |t| && AlphaNum(c)
    ensures Words(t + [c]) == [t + [c]]
  {
    RunLengthSnoc(t, c);
    OneWord(t + [c]);
  }

  lemma OneMoreOnWord(t: string, c: char, words: seq<string>)
    requires t != "" && AlphaNum(t[|t| - 1])
    requires words == [if AlphaNum(c) then t + [c] else t]
    ensures OneMore(t, c, [t], words)
  {
  }

  lemma SnocToRun(t: string, c: char)
    requires t != "" && RunLength(t) == |t|
    ensures OneMore(t, c, Words(t), Words(t + [c]))
  {
    OneWord(t);
    if AlphaNum(c) { WordExtended(t, c); } else { WordThenSeparator(t, c); }
    OneMoreOnWord(t, c, Words(t + [c]));
  }

  lemma {:induction false} WordsSnoc(t: string, c: char)
    ensures OneMore(t, c, Words(t), Words(t + [c]))
    decreases |t|
  {
    var u := t + [c];
    if t == "" {
      assert u == [c] && u[1..] == "";
      if AlphaNum(c) { FrontWord(u); assert u[..1] == u; }
    } else if !AlphaNum(t[0]) {
      assert u[1..] == t[1..] + [c];
      WordsSnoc(t[1..], c);
      assert |t| > 1 ==> t[1..][|t| - 2] == t[|t| - 1];
    } else if RunLength(t) == |t| {
      SnocToRun(t, c);
    } else {
      SnocBehindRun(t, c, RunLength(t));
    }
  }

  lemma {:induction false} SnocBehindRun(t: string, c: char, n: nat)
    requires t != "" && AlphaNum(t[0]) && n == RunLength(t) < |t|
    ensures OneMore(t, c, Words(t), Words(t + [c]))
    decreases |t|, 0
  {
    var u := t + [c];
    RunLengthSnoc(t, c);
    assert u[..n] == t[..n] && u[n..] == t[n..] + [c];
    assert n > 0;
    WordsSnoc(t[n..], c);
    OneMoreBehind(t, n, c, t[..n], Words(t[n..]), Words(u[n..]));
  }

  lemma {:induction false} DashedSnoc(words: seq<string>, w: string)
    ensures Dashed(words + [w]) == if words == [] then w else Dashed(words) + "-" + w
    decreases |words|
  {
    if |words| > 0 {
      assert (words + [w])[1..] == words[1..] + [w];
      DashedSnoc(words[1..], w);
    }
  }

  /** What the loop has written after `t`. */
  function Written(t: string): string {
    Dashed(Words(t)) + if Words(t) != [] && !AlphaNum(t[|t| - 1]) then "-" else ""
  }

  lemma WrittenSnoc(t: string, c: char)
    ensures Written(t + [c]) ==
            if AlphaNum(c) then Written(t) + [c]
            else if Written(t) == "" || Written(t)[|Written(t)| - 1] == '-' then Written(t)
            else Written(t) + "-"
  {
    WordsSnoc(t, c);
    if !AlphaNum(c) {
      WordsTidy(t);
    } else if t != "" && AlphaNum(t[|t| - 1]) {
      var n := |Words(t)| - 1;
      assert Words(t) == Words(t)[..n] + [Words(t)[n]];
      LastWordGrows(Words(t)[..n], Words(t)[n], c);
    } else {
      DashedSnoc(Words(t), [c]);
    }
  }

  lemma LastWordGrows(front: seq<string>, last: string, c: char)
    ensures Dashed(front + [last + [c]]) == Dashed(front + [last]) + [c]
  {
    DashedSnoc(front, last);
    DashedSnoc(front, last + [c]);
    if front != [] {
      var d := Dashed(front) + "-";
      assert d + (last + [c]) == (d + last) + [c];
    }
  }

  /** The loop with its dash flag, then the trims. */
  method SanitizeName(s: string) returns (name: string)
    ensures name == Sanitized(s)
  {
    var lowered := Lower(s);
    var b := "";
    var lastDash := true;
    for i := 0 to |lowered|
      invariant b == Written(lowered[..i])
      invariant lastDash <==> b == "" || b[|b| - 1] == '-'
    {
      var r := lowered[i];
      WrittenSnoc(lowered[..i], r);
      assert lowered[..i + 1] == lowered[..i] + [r];
      if AlphaNum(r) {
        b := b + [r];
        lastDash := false;
      } else if !lastDash {
        b := b + "-";
        lastDash := true;
      }
    }
    assert lowered[..|lowered|] == lowered;
    TrimWritten(lowered);
    name := TrimDashes(b);
    if |name| > MAX_LABEL {
      name := TrimDashes(name[..MAX_LABEL]);
    }
    WordsTidy(lowered);
    TrimTidy(CutLabel(Dashed(Words(lowered))), Dashed(Words(lowered)));
  }

  lemma TrimWritten(t: string)
    ensures TrimDashes(Written(t)) == Dashed(Words(t))
  {
    WordsTidy(t);
    var d := Dashed(Words(t));
    if Written(t) != d {
      assert Written(t)[..|Written(t)| - 1] == d;
    }
  }

  lemma TrimTidy(c: string, d: string)
    requires Tidy(d)
    ensures c == d ==> TrimDashes(c) == d
  {
  }

  // --- resource names -------------------------------------------------------

  function NoDots(ip: string): string {
    if ip == "" then "" else [if ip[0] == '.' || ip[0] == ':' then '-' else ip[0]] + NoDots(ip[1..])
  }

  /** The host's first label, else the instance name, else the address. */
  function ResourceName(hostname: string, instance: string, ip: string): string {
    var host := Sanitized(Cut(hostname, '.').before);
    if host != "" then host
    else if Sanitized(instance) != "" then Sanitized(instance)
    else "bmc-" + Sanitized(NoDots(ip))
  }

  /** The host's first label goes first, then the instance, then the address with its dots
      and colons turned to dashes. */
  lemma ResourceNameExact(hostname: string, host: string, instance: string, ip: string)
    requires '.' !in host && (hostname == host || (|host| < |hostname| && hostname[..|host|] == host && hostname[|host|] == '.'))
    ensures Sanitized(host) != "" ==> ResourceName(hostname, instance, ip) == Sanitized(host)
    ensures Sanitized(host) == "" && Sanitized(instance) != "" ==> ResourceName(hostname, instance, ip) == Sanitized(instance)
    ensures Sanitized(host) == "" && Sanitized(instance) == "" ==>
              exists dashed: string ::
                && |dashed| == |ip|
                && (forall i :: 0 <= i < |ip| ==> dashed[i] == if ip[i] in ".:" then '-' else ip[i])
                && ResourceName(hostname, instance, ip) == "bmc-" + Sanitized(dashed)
  {
    assert forall j :: 0 <= j < |host| ==> hostname[j] == host[j] && host[j] in host;
    assert IndexOf(hostname, '.') == |host|;
    assert Cut(hostname, '.').before == host;
    NoDotsAt(ip);
    assert |NoDots(ip)| == |ip| && ResourceName(hostname, instance, ip) != "bmc-" + Sanitized(NoDots(ip)) ==>
             Sanitized(host) != "" || Sanitized(instance) != "";
  }

  lemma PrefixedIsLabel(tail: string)
    requires tail == "" || IsLabel(tail)
    ensures IsLabel("bmc-" + tail) <==> 1 <= |tail| <= MAX_LABEL - 4
  {
    var name := "bmc-" + tail;
    assert name[0] == 'b' && name[1] == 'm' && name[2] == 'c' && name[3] == '-';
    assert forall i :: 4 <= i < |name| ==> name[i] == tail[i - 4];
  }

  /** A resource name is a valid label exactly when the host or the instance leaves one,
      or what the address leaves is not empty and fits behind the prefix. */
  lemma ResourceNameIsLabel(hostname: string, instance: string, ip: string)
    ensures IsLabel(ResourceName(hostname, instance, ip)) <==>
              || !NothingSurvives(Cut(hostname, '.').before)
              || !NothingSurvives(instance)
              || 1 <= |Sanitized(NoDots(ip))| <= MAX_LABEL - 4
  {
    SanitizedIsLabel(Cut(hostname, '.').before);
    SanitizedIsLabel(instance);
    SanitizedIsLabel(NoDots(ip));
    PrefixedIsLabel(Sanitized(NoDots(ip)));
  }

  function Decimal(n: nat): (d: string)
    ensures d != "" && forall i :: 0 <= i < |d| ==> '0' <= d[i] <= '9'
    ensures n < 10 ==> |d| == 1
    ensures n < 100 ==> |d| <= 2
    ensures n < 1000 ==> |d| <= 3
  {
    (if n < 10 then "" else Decimal(n / 10)) + ['0' + (n % 10) as char]
  }

  type Octet = n: nat | n < 256

  /** `netip.Addr` prints an IPv4 address as four decimals joined by dots. */
  function IPv4(a: Octet, b: Octet, c: Octet, d: Octet): string {
    Decimal(a) + "." + Decimal(b) + "." + Decimal(c) + "." + Decimal(d)
  }

  lemma {:induction false} NoDotsAt(ip: string)
    ensures |NoDots(ip)| == |ip|
    ensures forall i :: 0 <= i < |ip| ==> NoDots(ip)[i] == if ip[i] == '.' || ip[i] == ':' then '-' else ip[i]
  {
    if ip != "" { NoDotsAt(ip[1..]); }
  }

  /** Every IPv4 endpoint gets a valid label, whatever it calls itself. */
  lemma IPv4AlwaysNamed(hostname: string, instance: string, a: Octet, b: Octet, c: Octet, d: Octet)
    ensures IsLabel(ResourceName(hostname, instance, IPv4(a, b, c, d)))
  {
    var ip := IPv4(a, b, c, d);
    assert |ip| <= 15;
    NoDotsAt(ip);
    assert ip[0] == Decimal(a)[0];
    assert AlphaNum(LowerChar(NoDots(ip)[0]));
    SanitizedIsLabel(NoDots(ip));
    ResourceNameIsLabel(hostname, instance, ip);
  }
}
