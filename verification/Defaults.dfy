/** The default-credentials flag: the chart prints it, the controller parses it. */
module Defaults {
  import opened Common

  datatype Credential = Credential(username: string, password: string)

  datatype Parsed = Ok(defaults: map<string, Credential>) | Malformed(entry: string)

  // --- the specification ----------------------------------------------------

  /** `strings.Split` around a one-character separator. */
  function Split(s: string, c: char): (parts: seq<string>)
    ensures parts != []
    decreases |s|
  {
    var i := IndexOf(s, c);
    if i == |s| then [s] else [s[..i]] + Split(s[i + 1..], c)
  }

  /** An entry's service and credential, if it has all its parts. */
  function Entry(entry: string): Option<(string, Credential)> {
    var service := Cut(entry, '=');
    var user := Cut(service.after, ':');
    if service.found && user.found && service.before != "" && user.before != "" && user.after != ""
    then Some((service.before, Credential(user.before, user.after)))
    else None
  }

  /** Entries from the front, later ones overriding. */
  function ParseEntries(entries: seq<string>, defaults: map<string, Credential>): Parsed
    decreases |entries|
  {
    if entries == [] then Ok(defaults)
    else match Entry(entries[0])
      case None => Malformed(entries[0])
      case Some((service, credential)) => ParseEntries(entries[1..], defaults[service := credential])
  }

  function Parse(s: string): Parsed {
    if s == "" then Ok(map[]) else ParseEntries(Split(s, ','), map[])
  }

  /** An entry is a service, a user and a password exactly if it is these three joined by the
      first equals sign and the first colon behind it, none of them empty. */
  lemma EntryExact(entry: string, service: string, credential: Credential)
    ensures Entry(entry) == Some((service, credential)) <==>
              && entry == service + "=" + credential.username + ":" + credential.password
              && '=' !in service && ':' !in credential.username
              && service != "" && credential.username != "" && credential.password != ""
  {
    if Entry(entry) == Some((service, credential)) {
      var cut := Cut(entry, '=');
      CutParts(entry, '=');
      CutParts(cut.after, ':');
      assert entry == service + ['='] + (credential.username + [':'] + credential.password);
    } else if entry == service + "=" + credential.username + ":" + credential.password && '=' !in service && ':' !in credential.username {
      EntryCuts(service, credential);
    }
  }

  lemma CutParts(s: string, c: char)
    ensures var cut := Cut(s, c);
            cut.found ==> s == cut.before + [c] + cut.after && c !in cut.before
  {
    var i := IndexOf(s, c);
    if i < |s| {
      assert s == s[..i] + [c] + s[i + 1..];
      assert forall k :: 0 <= k < i ==> s[..i][k] == s[k];
    }
  }

  lemma EntryCuts(service: string, credential: Credential)
    requires '=' !in service && ':' !in credential.username
    ensures var entry := service + "=" + credential.username + ":" + credential.password;
            Cut(entry, '=').found && Cut(entry, '=').before == service
            && Cut(Cut(entry, '=').after, ':') == CutResult(credential.username, credential.password, true)
  {
    var tail := credential.username + [':'] + credential.password;
    assert service + "=" + credential.username + ":" + credential.password == service + ['='] + tail;
    CutConcat(service, '=', tail);
    CutConcat(credential.username, ':', credential.password);
  }

  /** Splitting cuts at every separator and nowhere else. */
  lemma {:induction false} SplitExact(s: string, c: char)
    ensures Join(Split(s, c), c) == s
    ensures forall part <- Split(s, c) :: c !in part
    decreases |s|
  {
    var i := IndexOf(s, c);
    if i < |s| {
      CutParts(s, c);
      SplitExact(s[i + 1..], c);
      JoinFront(s[..i], Split(s[i + 1..], c), c);
    }
  }

  lemma JoinFront(part: string, parts: seq<string>, c: char)
    requires parts != []
    ensures Join([part] + parts, c) == part + [c] + Join(parts, c)
  {
    assert ([part] + parts)[1..] == parts;
  }

  // --- what parsing means ---------------------------------------------------

  predicate WellFormed(entries: seq<string>) {
    forall i :: 0 <= i < |entries| ==> Entry(entries[i]).Some?
  }

  predicate ForService(entry: string, service: string) {
    Entry(entry).Some? && Entry(entry).value.0 == service
  }

  /** The credential of the last entry that names the service, searched from the end. */
  function LastFor(entries: seq<string>, service: string): Option<Credential>
    decreases |entries|
  {
    if entries == [] then None
    else if ForService(entries[|entries| - 1], service) then Some(Entry(entries[|entries| - 1]).value.1)
    else LastFor(entries[..|entries| - 1], service)
  }

  lemma {:induction false} LastForFront(entries: seq<string>, service: string)
    requires entries != []
    ensures LastFor(entries, service) ==
            if LastFor(entries[1..], service).Some? then LastFor(entries[1..], service)
            else if ForService(entries[0], service) then Some(Entry(entries[0]).value.1) else None
    decreases |entries|
  {
    var n := |entries|;
    if n == 1 {
      assert entries[1..] == [] && entries[..0] == [];
    } else {
      assert entries[1..][n - 2] == entries[n - 1];
      assert entries[1..][..n - 2] == entries[..n - 1][1..];
      LastForFront(entries[..n - 1], service);
    }
  }

  lemma {:induction false} ParseEntriesMeans(entries: seq<string>, defaults: map<string, Credential>, service: string)
    ensures var parsed := ParseEntries(entries, defaults);
            && (parsed.Ok? <==> WellFormed(entries))
            && (parsed.Ok? ==>
                  Lookup(parsed.defaults, service) ==
                  if LastFor(entries, service).Some? then LastFor(entries, service) else Lookup(defaults, service))
    decreases |entries|
  {
    if entries != [] {
      assert WellFormed(entries) <==> Entry(entries[0]).Some? && WellFormed(entries[1..]) by {
        assert entries == [entries[0]] + entries[1..];
      }
      if Entry(entries[0]).Some? {
        var (first, credential) := Entry(entries[0]).value;
        ParseEntriesMeans(entries[1..], defaults[first := credential], service);
        LastForFront(entries, service);
      }
    }
  }

  /** On every input: it is accepted exactly when each entry has a service, a user and a
      password, and then each service has the credential of the last entry naming it. */
  lemma ParseMeans(s: string, service: string)
    requires s != ""
    ensures Parse(s).Ok? <==> WellFormed(Split(s, ','))
    ensures Parse(s).Ok? ==> Lookup(Parse(s).defaults, service) == LastFor(Split(s, ','), service)
  {
    ParseEntriesMeans(Split(s, ','), map[], service);
  }

  // --- the chart's printer --------------------------------------------------

  function PrintEntry(service: string, credential: Credential): string {
    service + "=" + credential.username + ":" + credential.password
  }

  function Join(parts: seq<string>, c: char): string {
    if parts == [] then "" else if |parts| == 1 then parts[0] else parts[0] + [c] + Join(parts[1..], c)
  }

  function PrintEntries(entries: seq<(string, Credential)>): seq<string> {
    seq(|entries|, i requires 0 <= i < |entries| => PrintEntry(entries[i].0, entries[i].1))
  }

  /** `join "," ` over the values, in whatever order the map is walked. */
  function Print(entries: seq<(string, Credential)>): string {
    Join(PrintEntries(entries), ',')
  }

  predicate Printable(service: string, credential: Credential) {
    && service != "" && credential.username != "" && credential.password != ""
    && '=' !in service && ',' !in service
    && ':' !in credential.username && ',' !in credential.username
    && ',' !in credential.password
  }

  lemma EntryRoundTrip(service: string, credential: Credential)
    requires Printable(service, credential)
    ensures Entry(PrintEntry(service, credential)) == Some((service, credential))
    ensures ',' !in PrintEntry(service, credential) && PrintEntry(service, credential) != ""
  {
    var tail := credential.username + ":" + credential.password;
    assert PrintEntry(service, credential) == service + ['='] + tail;
    CutConcat(service, '=', tail);
    assert tail == credential.username + [':'] + credential.password;
    CutConcat(credential.username, ':', credential.password);
  }

  lemma {:induction false} SplitJoin(parts: seq<string>, c: char)
    requires parts != [] && forall i :: 0 <= i < |parts| ==> c !in parts[i]
    ensures Split(Join(parts, c), c) == parts
    decreases |parts|
  {
    var first := parts[0];
    if |parts| == 1 {
      IndexOfNone(first, c);
    } else {
      var rest := Join(parts[1..], c);
      IndexOfConcat(first, c, rest);
      var s := first + [c] + rest;
      assert s[..|first|] == first && s[|first| + 1..] == rest;
      SplitJoin(parts[1..], c);
    }
  }

  /** The walk visits each service of the map once, with its credential. */
  ghost predicate Walks(entries: seq<(string, Credential)>, defaults: map<string, Credential>) {
    && (forall i :: 0 <= i < |entries| ==> Lookup(defaults, entries[i].0) == Some(entries[i].1))
    && (forall service <- defaults :: exists i :: 0 <= i < |entries| && entries[i].0 == service)
  }

  lemma PrintedEntries(defaults: map<string, Credential>, entries: seq<(string, Credential)>)
    requires Walks(entries, defaults)
    requires forall service <- defaults :: Printable(service, defaults[service])
    ensures var parts := PrintEntries(entries);
            forall i :: 0 <= i < |entries| ==> Entry(parts[i]) == Some(entries[i]) && ',' !in parts[i] && parts[i] != ""
  {
    forall i | 0 <= i < |entries|
      ensures Entry(PrintEntries(entries)[i]) == Some(entries[i])
      ensures ',' !in PrintEntries(entries)[i] && PrintEntries(entries)[i] != ""
    {
      assert Lookup(defaults, entries[i].0) == Some(entries[i].1);
      EntryRoundTrip(entries[i].0, entries[i].1);
    }
  }

  lemma JoinNonEmpty(parts: seq<string>, c: char)
    requires parts != [] && parts[0] != ""
    ensures Join(parts, c) != ""
  {
  }

  /** Parsing undoes printing, for every map of printable credentials and every order in
      which it is printed. */
  lemma RoundTrip(defaults: map<string, Credential>, entries: seq<(string, Credential)>)
    requires Walks(entries, defaults)
    requires forall service <- defaults :: Printable(service, defaults[service])
    ensures Parse(Print(entries)) == Ok(defaults)
  {
    var parts := PrintEntries(entries);
    PrintedEntries(defaults, entries);
    if entries == [] {
      assert forall service :: service !in defaults;
      assert defaults == map[];
    } else {
      SplitJoin(parts, ',');
      JoinNonEmpty(parts, ',');
      ParseEntriesIs(parts, entries, map[]);
      Collected(entries, defaults, map[]);
    }
  }

  /** The entries laid over a map one after the other. */
  function Overlay(entries: seq<(string, Credential)>, defaults: map<string, Credential>): map<string, Credential>
    decreases |entries|
  {
    if entries == [] then defaults else Overlay(entries[1..], defaults[entries[0].0 := entries[0].1])
  }

  lemma {:induction false} ParseEntriesIs(parts: seq<string>, entries: seq<(string, Credential)>, defaults: map<string, Credential>)
    requires |parts| == |entries| && forall i :: 0 <= i < |parts| ==> Entry(parts[i]) == Some(entries[i])
    ensures ParseEntries(parts, defaults) == Ok(Overlay(entries, defaults))
    decreases |parts|
  {
    if parts != [] {
      ParseEntriesIs(parts[1..], entries[1..], defaults[entries[0].0 := entries[0].1]);
    }
  }

  lemma {:induction false} Collected(entries: seq<(string, Credential)>, all: map<string, Credential>, defaults: map<string, Credential>)
    requires forall i :: 0 <= i < |entries| ==> Lookup(all, entries[i].0) == Some(entries[i].1)
    requires forall service <- all :: service in defaults || exists i :: 0 <= i < |entries| && entries[i].0 == service
    requires forall service <- defaults :: service in all && defaults[service] == all[service]
    ensures Overlay(entries, defaults) == all
    decreases |entries|
  {
    if entries == [] {
      assert defaults.Keys == all.Keys;
    } else {
      var next := defaults[entries[0].0 := entries[0].1];
      forall service <- all ensures service in next || exists i :: 0 <= i < |entries| - 1 && entries[1..][i].0 == service {
        if service !in next {
          var i :| 0 <= i < |entries| && entries[i].0 == service;
          assert entries[1..][i - 1].0 == service;
        }
      }
      Collected(entries[1..], all, next);
    }
  }

  // --- the code -------------------------------------------------------------

  /** The loop over the split entries, with its early returns. */
  method ParseDefaults(s: string) returns (result: Parsed)
    ensures result == Parse(s)
  {
    var defaults: map<string, Credential> := map[];
    if s == "" {
      return Ok(defaults);
    }
    var entries := Split(s, ',');
    for i := 0 to |entries|
      invariant Parse(s) == ParseEntries(entries[i..], defaults)
    {
      assert entries[i..][1..] == entries[i + 1..];
      var service := Cut(entries[i], '=');
      if !service.found {
        return Malformed(entries[i]);
      }
      var user := Cut(service.after, ':');
      if !user.found || service.before == "" || user.before == "" || user.after == "" {
        return Malformed(entries[i]);
      }
      defaults := defaults[service.before := Credential(user.before, user.after)];
    }
    return Ok(defaults);
  }
}
