/** `normalizeStatus`: turns a status written by a client of the API into one of
    the three stored statuses, accepting upper case, surrounding whitespace and
    a table of synonyms. */
module TicketStatus {
  import opened Common
  import opened Text
  import opened Store

  /** The synonym table, entry by entry as the object literal lists them: every
      key is a cleaned-up spelling, every value a stored status. */
  const StatusTable: seq<(string, Status)> := [
    ("open", Open),
    ("in_progress", InProgress),
    ("in-progress", InProgress),
    ("inprogress", InProgress),
    ("progress", InProgress),
    ("closed", Closed),
    ("close", Closed),
    ("finished", Closed),
    ("done", Closed)
  ]

  /** The value of the first entry whose key is `key`, if any. */
  function TableLookup(table: seq<(string, Status)>, key: string): (r: Option<Status>)
    ensures r.Some? ==> exists i :: 0 <= i < |table| && table[i] == (key, r.value)
    ensures r.None? ==> forall i :: 0 <= i < |table| ==> table[i].0 != key
    decreases |table|
  {
    if table == [] then None
    else if table[0].0 == key then Some(table[0].1)
    else
      var r := TableLookup(table[1..], key);
      assert forall i :: 1 <= i < |table| ==> table[i] == table[1..][i - 1];
      r
  }

  /** A key that no earlier entry has finds its own entry. */
  lemma {:induction false} TableLookupAt(table: seq<(string, Status)>, i: nat, key: string)
    requires i < |table| && table[i].0 == key
    requires forall j :: 0 <= j < i ==> table[j].0 != key
    ensures TableLookup(table, key) == Some(table[i].1)
    decreases i
  {
    if i > 0 {
      TableLookupAt(table[1..], i - 1, key);
    }
  }

  const ValidStatuses: seq<string> := ["open", "in_progress", "closed"]

  /** The outcome of normalizing: no status given, a stored status, or the
      error the function throws, whose message `InvalidStatusMessage` spells
      out from the raw input. */
  datatype Normalized = Missing | Canonical(status: Status) | Invalid

  /** Trimmed and lower-cased, as the table is keyed. */
  function Clean(raw: string): string {
    Lower(Trim(raw))
  }

  function Join(parts: seq<string>, sep: string): string
    decreases |parts|
  {
    if parts == [] then ""
    else if |parts| == 1 then parts[0]
    else parts[0] + sep + Join(parts[1..], sep)
  }

  const MessageSuffix := " (or variations like \"close\", \"in-progress\")"

  function InvalidStatusMessage(raw: string): string {
    "Invalid status \"" + raw + "\". Must be: " + Join(ValidStatuses, ", ") + MessageSuffix
  }

  lemma JoinThree(a: string, b: string, c: string, sep: string)
    ensures Join([a, b, c], sep) == a + sep + (b + sep + c)
  {
    assert [b, c][1..] == [c];
    assert Join([b, c], sep) == b + sep + c;
    assert [a, b, c][1..] == [b, c];
  }

  /** The status the already-normalized check returns for `clean`, which is
      then one of the three names. */
  function StatusNamed(clean: string): Status {
    if clean == "open" then Open else if clean == "in_progress" then InProgress else Closed
  }

  /** The table lookup, then the check for an already-normalized status. */
  function Lookup(clean: string): Option<Status> {
    match TableLookup(StatusTable, clean)
    case Some(st) => Some(st)
    case None => if clean in ValidStatuses then Some(StatusNamed(clean)) else None
  }

  function NormalizeStatus(raw: Field): Normalized {
    if !Truthy(raw) then Missing
    else
      match Lookup(Clean(raw.s))
      case Some(st) => Canonical(st)
      case None => Invalid
  }

  /** An absent, null or empty status normalizes to nothing. */
  lemma NormalizeMissing(raw: Field)
    ensures NormalizeStatus(raw).Missing? <==> !Truthy(raw)
  {
  }

  /** A given status is either a key of the synonym table after cleaning, and
      then maps through it, or is refused. */
  lemma NormalizeGiven(raw: Field)
    requires Truthy(raw)
    ensures TableLookup(StatusTable, Clean(raw.s)).Some? ==>
      NormalizeStatus(raw) == Canonical(TableLookup(StatusTable, Clean(raw.s)).value)
    ensures TableLookup(StatusTable, Clean(raw.s)).None? ==>
      NormalizeStatus(raw) == Invalid
  {
    FallbackUnreachable(Clean(raw.s));
  }

  /** The fallback that returns an already-normalized status is never reached:
      every valid status is a key of the table. */
  lemma FallbackUnreachable(clean: string)
    ensures clean in ValidStatuses ==>
      TableLookup(StatusTable, clean).Some? && StatusName(TableLookup(StatusTable, clean).value) == clean
  {
    if clean in ValidStatuses {
      var i :| 0 <= i < |ValidStatuses| && ValidStatuses[i] == clean;
      if i == 0 {
        OpenIsAKey();
      } else if i == 1 {
        InProgressIsAKey();
      } else {
        ClosedIsAKey();
      }
    }
  }

  lemma OpenIsAKey()
    ensures TableLookup(StatusTable, "open") == Some(Open)
  {
    TableLookupAt(StatusTable, 0, "open");
  }

  lemma InProgressIsAKey()
    ensures TableLookup(StatusTable, "in_progress") == Some(InProgress)
  {
    assert StatusTable[0].0 != "in_progress";
    TableLookupAt(StatusTable, 1, "in_progress");
  }

  lemma ClosedIsAKey()
    ensures TableLookup(StatusTable, "closed") == Some(Closed)
  {
    forall j | 0 <= j < 5 ensures StatusTable[j].0 != "closed" {
      assert |StatusTable[j].0| != 6;
    }
    TableLookupAt(StatusTable, 5, "closed");
  }

  /** The error for a refused status names all three allowed statuses. */
  lemma InvalidMessageNamesStatuses(raw: string, st: Status)
    ensures Contains(InvalidStatusMessage(raw), StatusName(st))
  {
    var list := Join(ValidStatuses, ", ");
    ListNamesStatus(st);
    ContainsExtended("Invalid status \"" + raw + "\". Must be: ", list, MessageSuffix, StatusName(st));
  }

  /** The joined list of valid statuses contains each of them. */
  lemma ListNamesStatus(st: Status)
    ensures Contains(Join(ValidStatuses, ", "), StatusName(st))
  {
    var sep := ", ";
    var a, b, c := StatusName(Open), StatusName(InProgress), StatusName(Closed);
    assert ValidStatuses == [a, b, c];
    JoinThree(a, b, c, sep);
    match st
    case Open =>
      assert a + sep + (b + sep + c) == [] + a + (sep + (b + sep + c));
      ContainsSpliced([], a, sep + (b + sep + c));
    case InProgress =>
      assert a + sep + (b + sep + c) == (a + sep) + b + (sep + c);
      ContainsSpliced(a + sep, b, sep + c);
    case Closed =>
      assert a + sep + (b + sep + c) == (a + sep + b + sep) + c + [];
      ContainsSpliced(a + sep + b + sep, c, []);
  }

  /** Every stored status's own name normalizes to that status, so normalizing
      the name of a result gives the same result. */
  lemma {:induction false} NormalizeIdempotent(raw: Field)
    requires NormalizeStatus(raw).Canonical?
    ensures NormalizeStatus(Text(StatusName(NormalizeStatus(raw).status))) == NormalizeStatus(raw)
  {
    var st := NormalizeStatus(raw).status;
    NameNormalizes(st);
  }

  lemma NameNormalizes(st: Status)
    ensures NormalizeStatus(Text(StatusName(st))) == Canonical(st)
  {
    CleanName(st);
    LookupName(st);
  }

  lemma CleanName(st: Status)
    ensures Clean(StatusName(st)) == StatusName(st)
  {
    match st
    case Open => CleanFixed("open");
    case InProgress => CleanFixed("in_progress");
    case Closed => CleanFixed("closed");
  }

  /** A spelling with no capital letter and no whitespace at its ends is
      already clean. */
  lemma CleanFixed(s: string)
    requires s == [] || (!IsSpace(s[0]) && !IsSpace(s[|s| - 1]))
    requires NoUpper(s)
    ensures Clean(s) == s
  {
    TrimmedFixed(s);
    LowerFixed(s);
  }

  lemma LookupName(st: Status)
    ensures Lookup(StatusName(st)) == Some(st)
  {
    FallbackUnreachable(StatusName(st));
    assert StatusName(st) in ValidStatuses;
  }

  /** Letter case does not matter: a status and its lower-cased spelling are
      accepted alike and map to the same status. */
  lemma NormalizeIgnoresCase(s: string)
    ensures NormalizeStatus(Text(Lower(s))).Canonical? <==> NormalizeStatus(Text(s)).Canonical?
    ensures NormalizeStatus(Text(s)).Canonical? ==>
      NormalizeStatus(Text(Lower(s))).status == NormalizeStatus(Text(s)).status
  {
    TrimLowerCommute(s);
    LowerNormal(Trim(s));
    assert Clean(Lower(s)) == Clean(s);
    SameCleanSameOutcome(Lower(s), s);
  }

  /** Two spellings that clean up alike normalize alike. */
  lemma SameCleanSameOutcome(a: string, b: string)
    requires Clean(a) == Clean(b)
    ensures NormalizeStatus(Text(a)).Canonical? <==> NormalizeStatus(Text(b)).Canonical?
    ensures NormalizeStatus(Text(a)).Canonical? ==>
      NormalizeStatus(Text(a)).status == NormalizeStatus(Text(b)).status
  {
    AcceptedIffFound(a);
    AcceptedIffFound(b);
  }

  /** A spelling is accepted exactly when the lookup finds its cleaned form,
      and then as the status found; the empty spelling is found by nothing. */
  lemma AcceptedIffFound(raw: string)
    ensures NormalizeStatus(Text(raw)).Canonical? <==> Lookup(Clean(raw)).Some?
    ensures NormalizeStatus(Text(raw)).Canonical? ==>
      NormalizeStatus(Text(raw)).status == Lookup(Clean(raw)).value
  {
    if raw == "" {
      TrimmedFixed(raw);
      EmptyNotFound();
    }
  }

  lemma EmptyNotFound()
    ensures Lookup("") == None
  {
    assert forall i :: 0 <= i < |StatusTable| ==> StatusTable[i].0 != "";
    assert "" !in ValidStatuses;
  }

  /** Leading whitespace does not matter: a padded spelling is accepted or
      refused as the bare one is, and maps to the same status. */
  lemma PaddingIgnored(pad: char, s: string)
    requires IsSpace(pad)
    ensures NormalizeStatus(Text([pad] + s)).Canonical? <==> NormalizeStatus(Text(s)).Canonical?
    ensures NormalizeStatus(Text(s)).Canonical? ==>
      NormalizeStatus(Text([pad] + s)).status == NormalizeStatus(Text(s)).status
  {
    TrimStartSkips([pad] + s);
    assert ([pad] + s)[1..] == s;
    SameCleanSameOutcome([pad] + s, s);
  }

  /** Every spelling the synonym table lists is accepted as written and
      mapped to the status the table gives it. */
  lemma SynonymAccepted(i: nat)
    requires i < |StatusTable|
    ensures NormalizeStatus(Text(StatusTable[i].0)) == Canonical(StatusTable[i].1)
  {
    TableKeyClean(i);
    TableKeyFound(i);
    AcceptedWhenFound(StatusTable[i].0, StatusTable[i].1);
  }

  /** A non-empty spelling whose cleaned form the lookup finds is accepted
      with the status found. */
  lemma AcceptedWhenFound(raw: string, st: Status)
    requires raw != "" && Lookup(Clean(raw)) == Some(st)
    ensures NormalizeStatus(Text(raw)) == Canonical(st)
  {
  }

  lemma TableKeyFound(i: nat)
    requires i < |StatusTable|
    ensures StatusTable[i].0 != ""
    ensures Lookup(StatusTable[i].0) == Some(StatusTable[i].1)
  {
    TableKeysDistinct(i);
    TableLookupAt(StatusTable, i, StatusTable[i].0);
  }

  lemma TableKeyClean(i: nat)
    requires i < |StatusTable|
    ensures Clean(StatusTable[i].0) == StatusTable[i].0
  {
    CleanFixed(StatusTable[i].0);
  }

  lemma TableKeysDistinct(i: nat)
    requires i < |StatusTable|
    ensures forall j :: 0 <= j < i ==> StatusTable[j].0 != StatusTable[i].0
  {
  }

  /** A non-empty spelling whose cleaned form the lookup does not find is
      refused. */
  lemma RefusedWhenNotFound(raw: string)
    requires raw != "" && Lookup(Clean(raw)) == None
    ensures NormalizeStatus(Text(raw)) == Invalid
  {
  }

  // ---------------------------------------------------------------------
  // The lookup as written. `statusMap[cleanStatus]` reads a property of a
  // plain object literal, so besides the table's own keys it also finds the
  // members every object inherits from Object.prototype. Two of those have
  // all-lower-case names and survive the lower-casing: `constructor` and
  // `__proto__`. For them the function returns that inherited member (a
  // truthy non-status) instead of throwing.

  const ObjectPrototypeKeys: set<string> := {
    "constructor", "__proto__", "__defineGetter__", "__defineSetter__",
    "__lookupGetter__", "__lookupSetter__", "hasOwnProperty", "isPrototypeOf",
    "propertyIsEnumerable", "toLocaleString", "toString", "valueOf"
  }

  /** What the JavaScript function hands back. */
  datatype JsOutcome =
    | ReturnsNull
    | ReturnsStatus(status: Status)
    | ReturnsInherited(key: string)
    | Throws

  function NormalizeStatusAsWritten(raw: Field): JsOutcome {
    if !Truthy(raw) then ReturnsNull
    else
      var clean := Clean(raw.s);
      match TableLookup(StatusTable, clean)
      case Some(st) => ReturnsStatus(st)
      case None =>
        if clean in ObjectPrototypeKeys then ReturnsInherited(clean)
        else if clean in ValidStatuses then ReturnsStatus(StatusNamed(clean))
        else Throws
  }

  /** The input that shows it: "constructor" is neither refused nor mapped to
      a status; the corrected lookup refuses it. */
  lemma ConstructorEscapes()
    ensures NormalizeStatusAsWritten(Text("constructor")) == ReturnsInherited("constructor")
    ensures Lookup(Clean("constructor")) == None
  {
    ConstructorClean();
    ConstructorNotAKey();
    assert "constructor" in ObjectPrototypeKeys;
    AsWrittenInherited(Text("constructor"));
  }

  lemma ConstructorClean()
    ensures Clean("constructor") == "constructor"
  {
    CleanFixed("constructor");
  }

  /** The as-written lookup hands back an inherited member exactly for a
      cleaned spelling that the table lacks and Object.prototype has. */
  lemma AsWrittenInherited(raw: Field)
    requires Truthy(raw) && TableLookup(StatusTable, Clean(raw.s)) == None
    requires Clean(raw.s) in ObjectPrototypeKeys
    ensures NormalizeStatusAsWritten(raw) == ReturnsInherited(Clean(raw.s))
  {
  }

  lemma ConstructorNotAKey()
    ensures TableLookup(StatusTable, "constructor") == None
    ensures Lookup("constructor") == None
  {
    ConstructorNotInTable();
    assert "constructor" !in ValidStatuses;
  }

  lemma ConstructorNotInTable()
    ensures forall i :: 0 <= i < |StatusTable| ==> StatusTable[i].0 != "constructor"
  {
    forall i | 0 <= i < |StatusTable| ensures StatusTable[i].0 != "constructor" {
      if |StatusTable[i].0| == 11 {
        assert StatusTable[i].0[0] != "constructor"[0];
      }
    }
  }

  /** Only the two all-lower-case inherited names can reach the inherited
      branch, whatever the input's case and padding. */
  lemma OnlyLowerCaseKeysEscape(raw: Field)
    requires NormalizeStatusAsWritten(raw).ReturnsInherited?
    ensures Clean(raw.s) == "constructor" || Clean(raw.s) == "__proto__"
  {
    LowerNormal(Trim(raw.s));
    InheritedLowerCaseKeys(Clean(raw.s));
  }

  lemma InheritedLowerCaseKeys(k: string)
    requires k in ObjectPrototypeKeys && NoUpper(k)
    ensures k == "constructor" || k == "__proto__"
  {
    assert k != "__defineGetter__" by { assert "__defineGetter__"[8] == 'G'; }
    assert k != "__defineSetter__" by { assert "__defineSetter__"[8] == 'S'; }
    assert k != "__lookupGetter__" by { assert "__lookupGetter__"[8] == 'G'; }
    assert k != "__lookupSetter__" by { assert "__lookupSetter__"[8] == 'S'; }
    assert k != "hasOwnProperty" by { assert "hasOwnProperty"[3] == 'O'; }
    assert k != "isPrototypeOf" by { assert "isPrototypeOf"[2] == 'P'; }
    assert k != "propertyIsEnumerable" by { assert "propertyIsEnumerable"[8] == 'I'; }
    assert k != "toLocaleString" by { assert "toLocaleString"[2] == 'L'; }
    assert k != "toString" by { assert "toString"[2] == 'S'; }
    assert k != "valueOf" by { assert "valueOf"[5] == 'O'; }
  }

  /** Everywhere else the lookup as written and the corrected one agree: the
      same status, the same absence, and a throw exactly where the corrected
      one refuses. */
  lemma AsWrittenAgrees(raw: Field)
    requires !Truthy(raw) || Clean(raw.s) !in ObjectPrototypeKeys
    ensures NormalizeStatus(raw).Missing? <==> NormalizeStatusAsWritten(raw).ReturnsNull?
    ensures NormalizeStatus(raw).Canonical? <==> NormalizeStatusAsWritten(raw).ReturnsStatus?
    ensures NormalizeStatus(raw).Canonical? ==>
      NormalizeStatusAsWritten(raw).status == NormalizeStatus(raw).status
    ensures NormalizeStatus(raw).Invalid? <==> NormalizeStatusAsWritten(raw).Throws?
  {
  }
}
