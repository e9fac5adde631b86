/** Directory entries as the browser passes them around (`{name, type, path, size}`),
    the case-insensitive name filter that both the key handler and the renderer apply,
    and the directory listing the key handler drives. The listing's own implementation
    (reading directories, changing directory) is not part of this model: it is an
    abstract collaborator whose successes and new contents are unspecified. */
module Entries {
  import opened Strings

  datatype EntryType = File | Directory | Executable

  datatype Entry = Entry(name: string, kind: EntryType, path: string, size: nat)

  /** `entry[:name].downcase.include?(query.downcase)` */
  predicate NameMatches(e: Entry, query: string) {
    Contains(Downcase(e.name), Downcase(query))
  }

  /** `a` is `b` with some elements left out, the rest in their order. */
  predicate IsSubsequence<T(==)>(a: seq<T>, b: seq<T>)
    decreases |b|
  {
    if a == [] then true
    else if b == [] then false
    else if a[0] == b[0] then IsSubsequence(a[1..], b[1..])
    else IsSubsequence(a, b[1..])
  }

  /** `entries.select { |entry| entry[:name].downcase.include?(query.downcase) }`: the
      matching entries, in their order. */
  function FilterByName(entries: seq<Entry>, query: string): (r: seq<Entry>)
    ensures forall e :: e in r <==> e in entries && NameMatches(e, query)
    ensures IsSubsequence(r, entries)
    ensures |r| <= |entries|
    ensures forall e :: multiset(r)[e] == if NameMatches(e, query) then multiset(entries)[e] else 0
  {
    if entries == [] then []
    else
      var rest := FilterByName(entries[1..], query);
      assert entries == [entries[0]] + entries[1..];
      if NameMatches(entries[0], query) then [entries[0]] + rest else rest
  }

  /** An empty query keeps every entry. */
  lemma {:induction false} FilterByEmptyQuery(entries: seq<Entry>)
    ensures FilterByName(entries, "") == entries
  {
    if entries != [] {
      EmptyIsContained(Downcase(entries[0].name));
      FilterByEmptyQuery(entries[1..]);
    }
  }

  /** Filtering with the same query again changes nothing. */
  lemma {:induction false} FilterIdempotent(entries: seq<Entry>, query: string)
    ensures FilterByName(FilterByName(entries, query), query) == FilterByName(entries, query)
  {
    if entries != [] {
      FilterIdempotent(entries[1..], query);
    }
  }

  /** Typing more of the query only narrows the result: filtering with `query + more`
      is filtering the `query` result with `query + more`. */
  lemma {:induction false} FilterNarrows(entries: seq<Entry>, query: string, more: string)
    ensures FilterByName(entries, query + more) == FilterByName(FilterByName(entries, query), query + more)
  {
    if entries != [] {
      FilterNarrows(entries[1..], query, more);
      var e := entries[0];
      if NameMatches(e, query + more) {
        DowncaseConcat(query, more);
        ContainsShorterNeedle(Downcase(e.name), Downcase(query), Downcase(more));
      }
    }
  }

  /** `entries.find_index { |entry| entry[:name] == name }` */
  function FindIndexByName(entries: seq<Entry>, name: string): (r: Option<nat>)
    ensures r.Some? ==> r.value < |entries| && entries[r.value].name == name
    ensures r.Some? ==> forall j :: 0 <= j < r.value ==> entries[j].name != name
    ensures r.None? ==> forall j :: 0 <= j < |entries| ==> entries[j].name != name
  {
    if entries == [] then None
    else if entries[0].name == name then Some(0)
    else match FindIndexByName(entries[1..], name)
      case None => None
      case Some(i) => Some(i + 1)
  }

  /** The directory listing seen from the key handler: its entries and its path. Moving
      into a directory or to the parent reports success or failure; on failure nothing
      changes. What the new directory holds is outside the model. */
  class DirectoryListing {
    var entries: seq<Entry>
    var currentPath: string

    constructor (entries: seq<Entry>, currentPath: string)
      ensures this.entries == entries && this.currentPath == currentPath
    {
      this.entries := entries;
      this.currentPath := currentPath;
    }

    /** `navigate_to(name)` */
    method NavigateTo(name: string) returns (ok: bool)
      modifies this
      ensures !ok ==> entries == old(entries) && currentPath == old(currentPath)
    {
      ok := *;
      if ok {
        var newEntries: seq<Entry> := *;
        var newPath: string := *;
        entries, currentPath := newEntries, newPath;
      }
    }

    /** `navigate_to_parent` */
    method NavigateToParent() returns (ok: bool)
      modifies this
      ensures !ok ==> entries == old(entries) && currentPath == old(currentPath)
    {
      ok := *;
      if ok {
        var newEntries: seq<Entry> := *;
        var newPath: string := *;
        entries, currentPath := newEntries, newPath;
      }
    }

    /** `refresh`: re-reads the current directory. */
    method Refresh()
      modifies this
      ensures currentPath == old(currentPath)
    {
      var newEntries: seq<Entry> := *;
      entries := newEntries;
    }
  }
}
