/** Reference data (src/domain/referenceData.js): the Incoterm set and the HS
    code table, parsed from their resource files, with built-in fallback
    tables when loading fails and a compute-once cache.  Reading the files and
    parsing YAML are outside the model: a load receives the file's text, or
    the parsed YAML document, or None when reading or parsing threw. */
module ReferenceData {
  import opened Base
  import opened OrderedMaps
  import opened JsValues
  import opened Strings
  import opened Validation

  /** The eleven Incoterms 2020 rules. */
  const FallbackIncoterms: set<string> :=
    {"EXW", "FCA", "FAS", "FOB", "CFR", "CIF", "CPT", "CIP", "DAP", "DPU", "DDP"}

  const FallbackHsCodes: OrderedMap<string, string> := [
    ("850490", "Parts for static converters"),
    ("850422", "Transformers exceeding 650 kVA but not exceeding 10,000 kVA"),
    ("853710", "Boards with voltage <= 1,000 V")
  ]

  // ---------------------------------------------------------------- CSV

  /** Drops one trailing carriage return. */
  function StripCr(p: string): string {
    if |p| > 0 && p[|p| - 1] == '\r' then p[..|p| - 1] else p
  }

  /** `raw.split(/\r?\n/)`: cut at each line feed, a carriage return directly
      before it belonging to the separator. */
  function SplitLines(raw: string): (lines: seq<string>)
    ensures |lines| >= 1
    ensures forall i, j :: 0 <= i < |lines| && 0 <= j < |lines[i]| ==> lines[i][j] != '\n'
    decreases |raw|
  {
    match IndexOfChar(raw, '\n')
    case None => [raw]
    case Some(k) => [StripCr(raw[..k])] + SplitLines(raw[k + 1..])
  }

  /** Without carriage returns, the lines joined by line feeds are the text. */
  lemma {:induction false} SplitLinesRoundTrip(raw: string)
    requires forall i :: 0 <= i < |raw| ==> raw[i] != '\r'
    ensures Join(SplitLines(raw), "\n") == raw
    decreases |raw|
  {
    match IndexOfChar(raw, '\n')
    case None =>
    case Some(k) =>
      var pre, post := raw[..k], raw[k + 1..];
      var rest := SplitLines(post);
      assert StripCr(pre) == pre by {
        if |pre| > 0 {
          assert pre[|pre| - 1] == raw[k - 1];
        }
      }
      assert Join([pre] + rest, "\n") == pre + "\n" + Join(rest, "\n") by {
        JoinCons(pre, rest, "\n");
      }
      assert Join(rest, "\n") == post by {
        SplitLinesRoundTrip(post);
      }
      assert raw == pre + "\n" + post by {
        assert raw[k] == '\n';
      }
  }

  /** Lines without line feeds, joined with CRLF, split back into the same
      lines: the carriage return before each line feed is dropped. */
  lemma {:induction false} SplitLinesCrlfRoundTrip(ls: seq<string>)
    requires |ls| > 0
    requires forall i, j :: 0 <= i < |ls| && 0 <= j < |ls[i]| ==> ls[i][j] != '\n'
    ensures SplitLines(Join(ls, "\r\n")) == ls
    decreases |ls|
  {
    if |ls| > 1 {
      var a, rest := ls[0], ls[1..];
      assert ls == [a] + rest;
      var tail := Join(rest, "\r\n");
      var raw := a + "\r\n" + tail;
      assert Join(ls, "\r\n") == raw by {
        JoinCons(a, rest, "\r\n");
      }
      var k := |a| + 1;
      assert IndexOfChar(raw, '\n') == Some(k) by {
        assert raw[k] == '\n';
        forall j | 0 <= j < k ensures raw[j] != '\n' {
          if j < |a| {
            assert raw[j] == a[j];
          }
        }
      }
      assert raw[..k] == a + "\r" && raw[k + 1..] == tail;
      assert StripCr(a + "\r") == a;
      SplitLinesCrlfRoundTrip(rest);
    } else {
      assert IndexOfChar(ls[0], '\n') == None;
    }
  }

  /** `Array.prototype.filter`: the elements that pass, in their order. */
  function Filter<T(==,!new)>(xs: seq<T>, keep: T -> bool): (ys: seq<T>)
    ensures forall y :: y in ys <==> y in xs && keep(y)
    ensures |xs| == 1 ==> ys == if keep(xs[0]) then xs else []
    ensures |ys| <= |xs|
  {
    if |xs| == 0 then []
    else
      var init := xs[..|xs| - 1];
      var x := xs[|xs| - 1];
      assert xs == init + [x];
      var p := Filter(init, keep);
      if keep(x) then p + [x] else p
  }

  /** Filtering runs element by element: filtering a concatenation filters
      each part, in order. */
  lemma {:induction false} FilterConcat<T(!new)>(a: seq<T>, b: seq<T>, keep: T -> bool)
    ensures Filter(a + b, keep) == Filter(a, keep) + Filter(b, keep)
    decreases |b|
  {
    if |b| > 0 {
      var b' := b[..|b| - 1];
      assert (a + b)[..|a + b| - 1] == a + b';
      assert (a + b)[|a + b| - 1] == b[|b| - 1];
      FilterConcat(a, b', keep);
    } else {
      assert a + b == a;
    }
  }

  /** `Array.prototype.map`. */
  function MapSeq<A, B>(xs: seq<A>, f: A -> B): (ys: seq<B>)
    ensures |ys| == |xs|
    ensures forall i :: 0 <= i < |xs| ==> ys[i] == f(xs[i])
  {
    seq(|xs|, i requires 0 <= i < |xs| => f(xs[i]))
  }

  /** Mapping a concatenation maps each part. */
  lemma MapConcat<A, B>(a: seq<A>, b: seq<A>, f: A -> B)
    ensures MapSeq(a + b, f) == MapSeq(a, f) + MapSeq(b, f)
  {
    assert forall i :: 0 <= i < |b| ==> (a + b)[|a| + i] == b[i];
  }

  /** Every line, trimmed (`map((line) => line.trim())`). */
  function Trims(lines: seq<string>): (ts: seq<string>)
    ensures |ts| == |lines|
    ensures forall i :: 0 <= i < |lines| ==> ts[i] == Trim(lines[i])
  {
    MapSeq(lines, Trim)
  }

  /** `Boolean(s)` for a string. */
  predicate NonEmpty(s: string) {
    |s| > 0
  }

  /** Trims every line and keeps the non-empty ones (`loadCsv`): a text is
      kept exactly when it is the non-empty trim of a line. */
  function KeepNonBlank(lines: seq<string>): (r: seq<string>)
    ensures forall t :: t in r <==> |t| > 0 && t in Trims(lines)
    ensures |lines| == 1 ==> r == if Trim(lines[0]) == "" then [] else [Trim(lines[0])]
    ensures |r| <= |lines|
  {
    Filter(Trims(lines), NonEmpty)
  }

  /** The lines are kept line by line: the kept lines of a concatenation are
      those of each part, in order. */
  lemma KeepNonBlankConcat(a: seq<string>, b: seq<string>)
    ensures KeepNonBlank(a + b) == KeepNonBlank(a) + KeepNonBlank(b)
  {
    MapConcat(a, b, Trim);
    FilterConcat(Trims(a), Trims(b), NonEmpty);
  }

  /** `loadCsv`: the file's non-blank lines, trimmed. */
  function LoadCsv(raw: string): (lines: seq<string>)
    ensures forall t :: t in lines <==> |t| > 0 && t in Trims(SplitLines(raw))
  {
    KeepNonBlank(SplitLines(raw))
  }

  /** A file saved with CRLF line ends loads as its lines do: the line
      breaks are gone and only the trimmed non-blank lines remain. */
  lemma LoadCsvCrlf(ls: seq<string>)
    requires |ls| > 0
    requires forall i, j :: 0 <= i < |ls| && 0 <= j < |ls[i]| ==> ls[i][j] != '\n'
    ensures LoadCsv(Join(ls, "\r\n")) == KeepNonBlank(ls)
  {
    SplitLinesCrlfRoundTrip(ls);
  }

  /** One CSV row, as the source reads it: `[code, ...descriptionParts] =
      line.split(',')`, both sides trimmed, the parts rejoined with commas. */
  function ParseRow(line: string): (row: (string, string))
    ensures ',' !in row.0
    ensures |row.0| + |row.1| <= |line|
  {
    var parts := Split(line, ',');
    var code := Trim(parts[0]);
    var rest := Join(parts[1..], ",");
    TrimSlice(parts[0]);
    TrimSlice(rest);
    assert |parts[0]| + |rest| <= |line| by {
      RowLengths(line);
    }
    (code, Trim(rest))
  }

  /** The trim is a slice of the text: no longer, and made of its
      characters. */
  lemma TrimSlice(s: string)
    ensures |Trim(s)| <= |s|
    ensures forall c :: c in Trim(s) ==> c in s
  {
    var u := TrimStart(s);
    var t := TrimEnd(u);
    assert Trim(s) == t;
    assert forall c :: c in t ==> c in u by {
      assert t == u[..|t|];
    }
    assert forall c :: c in u ==> c in s by {
      assert u == s[|s| - |u|..];
    }
  }

  /** The code and the rejoined description together are no longer than
      the line: only the first comma is gone. */
  lemma RowLengths(line: string)
    ensures |Split(line, ',')[0]| + |Join(Split(line, ',')[1..], ",")| <= |line|
  {
    match IndexOfChar(line, ',')
    case None =>
      assert Split(line, ',')[1..] == [];
    case Some(k) =>
      SplitJoin(line[k + 1..], ',');
  }

  /** The code is the text before the first comma and the description is
      everything after it, commas included. */
  lemma ParseRowSplitsAtFirstComma(line: string, k: nat)
    requires k < |line| && line[k] == ','
    requires forall j :: 0 <= j < k ==> line[j] != ','
    ensures ParseRow(line) == (Trim(line[..k]), Trim(line[k + 1..]))
  {
    assert IndexOfChar(line, ',') == Some(k);
    SplitJoin(line[k + 1..], ',');
  }

  /** A row without a comma has an empty description. */
  lemma ParseRowWithoutComma(line: string)
    requires forall j :: 0 <= j < |line| ==> line[j] != ','
    ensures ParseRow(line) == (Trim(line), "")
  {
    assert IndexOfChar(line, ',') == None;
  }

  /** The rows after the header (`const [, ...rows] = lines`), parsed. */
  function ParsedRows(lines: seq<string>): (ps: seq<(string, string)>)
    ensures |ps| == if |lines| == 0 then 0 else |lines| - 1
    ensures forall i :: 0 <= i < |ps| ==> ps[i] == ParseRow(lines[1..][i])
  {
    MapSeq(if |lines| == 0 then [] else lines[1..], ParseRow)
  }

  /** `code && description`: both parts are non-empty. */
  predicate Complete(e: (string, string)) {
    |e.0| > 0 && |e.1| > 0
  }

  /** The rows after the header, parsed, without those whose code or
      description is empty: an entry is kept exactly when it is a complete
      parsed row. */
  function Entries(lines: seq<string>): (es: seq<(string, string)>)
    ensures forall e :: e in es <==> e in ParsedRows(lines) && |e.0| > 0 && |e.1| > 0
    ensures forall i :: 0 <= i < |es| ==> |es[i].0| > 0 && |es[i].1| > 0
  {
    Filter(ParsedRows(lines), Complete)
  }

  /** The entries follow the rows: a row added at the end adds its entry
      at the end, when it is complete, and nothing otherwise. */
  lemma EntriesRowByRow(lines: seq<string>, line: string)
    requires |lines| >= 1
    ensures Entries(lines + [line])
            == Entries(lines) + if Complete(ParseRow(line)) then [ParseRow(line)] else []
  {
    assert (lines + [line])[1..] == lines[1..] + [line];
    MapConcat(lines[1..], [line], ParseRow);
    FilterConcat(ParsedRows(lines), [ParseRow(line)], Complete);
  }

  /** `new Map(entries)`: a later duplicate code overwrites an earlier one. */
  function ParseHsTable(lines: seq<string>): (table: OrderedMap<string, string>)
    ensures forall k :: Get(table, k) == Get(Entries(lines), k)
    ensures Distinct(table)
  {
    SetAll([], Entries(lines))
  }

  /** Every description in a loaded table is non-empty. */
  lemma TableDescriptionsNonEmpty(lines: seq<string>, k: string)
    requires Get(ParseHsTable(lines), k).Some?
    ensures |Get(ParseHsTable(lines), k).value| > 0
  {
    var es := Entries(lines);
    var v := Get(es, k).value;
    var i :| 0 <= i < |es| && es[i] == (k, v);
  }

  /** The header line is never a row. */
  lemma HeaderDiscarded(header: string)
    ensures ParseHsTable([header]) == []
  {
  }

  /** `loadHsCodes()`: the parsed file, or the fallback when reading threw. */
  function LoadHsCodes(raw: Option<string>): (table: OrderedMap<string, string>)
    ensures raw.None? ==> table == FallbackHsCodes
    ensures raw.Some? ==> Distinct(table)
    ensures raw.Some? ==> forall k :: Get(table, k) == Get(Entries(LoadCsv(raw.value)), k)
  {
    match raw
    case None => FallbackHsCodes
    case Some(text) => ParseHsTable(LoadCsv(text))
  }

  /** `loadIncoterms()`: the upper-cased items of the document's `incoterms`
      array (none when it is not an array), or the fallback when reading or
      parsing threw. */
  function LoadIncoterms(doc: Option<JsValue>): (r: set<string>)
    ensures doc.None? ==> r == FallbackIncoterms
    ensures doc.Some? && !Prop(doc.value, "incoterms").Arr? ==> r == {}
    ensures doc.Some? && Prop(doc.value, "incoterms").Arr? ==>
              forall x :: x in r <==> exists item :: item in Prop(doc.value, "incoterms").items
                                                    && x == Upper(ToStr(item))
    ensures forall x :: x in r ==> Upper(x) == x
  {
    match doc
    case None =>
      assert forall x :: x in FallbackIncoterms ==> Upper(x) == x;
      FallbackIncoterms
    case Some(d) =>
      var items := Prop(d, "incoterms");
      if items.Arr? then
        var r := set item | item in items.items :: Upper(ToStr(item));
        assert forall x :: x in r ==> Upper(x) == x by {
          forall x | x in r ensures Upper(x) == x {
            var item :| item in items.items && x == Upper(ToStr(item));
            UpperIdempotent(ToStr(item));
          }
        }
        r
      else {}
  }

  // ---------------------------------------------------------------- the cache

  /** A module-level `let cached;` that is filled on first use. */
  datatype Cache<T> = Unfilled | Filled(value: T)

  /** `if (!cached) cached = load(); return cached;` — the load result is
      passed in because loading is pure given the files. */
  function Fetch<T>(c: Cache<T>, load: T): (r: (T, Cache<T>))
    ensures r.1 == Filled(r.0)
    ensures c.Filled? ==> r.0 == c.value
  {
    match c
    case Filled(v) => (v, c)
    case Unfilled => (load, Filled(load))
  }

  /** The values a sequence of calls returns when the k-th call would load
      `loads[k]` (the files may change between calls). */
  function Replay<T>(c: Cache<T>, loads: seq<T>): (vs: seq<T>)
    ensures |vs| == |loads|
    decreases |loads|
  {
    if |loads| == 0 then []
    else
      var (v, c') := Fetch(c, loads[0]);
      [v] + Replay(c', loads[1..])
  }

  /** Compute once: every call returns the value of the first load (or the
      value already cached), whatever later loads would have produced. */
  lemma {:induction false} ReplayReturnsFirst<T>(c: Cache<T>, loads: seq<T>)
    requires |loads| > 0
    ensures forall i :: 0 <= i < |loads| ==>
              Replay(c, loads)[i] == (if c.Filled? then c.value else loads[0])
    decreases |loads|
  {
    var (v, c') := Fetch(c, loads[0]);
    if |loads| > 1 {
      ReplayReturnsFirst(c', loads[1..]);
    }
  }

  /** `getIncotermSet()`: the cached set, or the loaded one, now cached. */
  function GetIncotermSet(c: Cache<set<string>>, doc: Option<JsValue>): (r: (set<string>, Cache<set<string>>))
    ensures r.0 == (if c.Filled? then c.value else LoadIncoterms(doc))
    ensures r.1 == Filled(r.0)
  {
    Fetch(c, LoadIncoterms(doc))
  }

  /** `getHsCodeMap()`: the cached table, or the loaded one, now cached. */
  function GetHsCodeMap(c: Cache<OrderedMap<string, string>>, raw: Option<string>)
    : (r: (OrderedMap<string, string>, Cache<OrderedMap<string, string>>))
    ensures r.0 == (if c.Filled? then c.value else LoadHsCodes(raw))
    ensures r.1 == Filled(r.0)
  {
    Fetch(c, LoadHsCodes(raw))
  }

  // ---------------------------------------------------------------- fallback facts

  /** The fallback tables: the eleven Incoterms, and three HS codes with no
      code repeated. */
  lemma FallbackTables()
    ensures |FallbackIncoterms| == 11
    ensures Keys(FallbackHsCodes) == ["850490", "850422", "853710"]
    ensures Distinct(FallbackHsCodes)
  {
    var m := FallbackHsCodes;
    assert m[0].0[4] == '9' && m[1].0[4] == '2' && m[2].0[4] == '1';
  }

  /** An Incoterm already in upper case is recognised as it stands. */
  lemma IncotermCfrExample()
    ensures ValidateIncoterm(Str("CFR"), FallbackIncoterms)
              == ValidationRecord(true, Some("CFR"), None, Recognised)
  {
    assert ClampString(Str("CFR"), 8) == "CFR";
    assert Upper("CFR") == "CFR";
  }

  /** The Incoterm validator on the fallback table, as the source's tests
      use it. */
  lemma IncotermExamples()
    ensures ValidateIncoterm(Str("cfr"), FallbackIncoterms)
              == ValidationRecord(true, Some("CFR"), None, Recognised)
    ensures ValidateIncoterm(Str("abc"), FallbackIncoterms).reason == UnknownIncoterm
    ensures ValidateIncoterm(Undefined, FallbackIncoterms) == MissingRecord
  {
    assert ClampString(Str("cfr"), 8) == "cfr";
    assert Upper("cfr") == "CFR";
    assert ClampString(Str("abc"), 8) == "abc";
    assert Upper("abc") == "ABC";
  }

  /** A code of the fallback table is recognised with its description, as
      the source's tests expect. */
  lemma HsCodeExamples()
    ensures ValidateHsCode(Str("850490"), FallbackHsCodes).valid
    ensures ValidateHsCode(Str("850490"), FallbackHsCodes).description
              == Some("Parts for static converters")
  {
    var m := FallbackHsCodes;
    var k := "850490";
    assert ClampString(Str(k), 10) == k;
    assert KeepDigits(k) == k;
    assert m[0].0 == k;
    assert m[1].0[4] != k[4] && m[2].0[4] != k[4];
    GetUnique(m, 0);
  }

  /** A code outside the table is UNKNOWN_HS_CODE. */
  lemma UnknownHsCodeExample()
    ensures ValidateHsCode(Str("999999"), FallbackHsCodes).reason == UnknownHsCode
  {
    var m := FallbackHsCodes;
    var k := "999999";
    assert ClampString(Str(k), 10) == k;
    assert KeepDigits(k) == k;
    assert m[0].0[0] != k[0] && m[1].0[0] != k[0] && m[2].0[0] != k[0];
    assert !HasKey(m, k);
  }
}
