/**
 * Lookup in the medicine knowledge base and the whitelist validator that decides
 * which model-suggested medicine names reach a patient (routes/chatbot.py:
 * `_normalize_med_name`, `_extract_valid_meds`, `_get_medicine_info` and the
 * medicine endpoints).
 */
module MedicineBase {
  import opened Common
  import opened Strings
  import opened Web
  import opened MedicineData

  // ---------------------------------------------------------------- normalisation and lookup

  /** `_normalize_med_name`: `name.strip().lower().replace('.', '')`. */
  function Normalize(name: string): string {
    RemoveChar(Lower(Strip(name)), '.')
  }

  lemma NormalizeShape(name: string)
    ensures HasNoUpper(Normalize(name)) && '.' !in Normalize(name)
  {
    var l := Lower(Strip(name));
    var n := Normalize(name);
    RemoveCharSpec(l, '.');
    forall i | 0 <= i < |n| ensures !IsUpper(n[i]) {
      assert n[i] in l;
      var j :| 0 <= j < |l| && l[j] == n[i];
    }
  }

  /** A name that is already stripped, lower-case and dot-free is its own normal form. */
  lemma NormalizeCanonical(name: string)
    requires IsCanonicalName(name)
    ensures Normalize(name) == name
  {
    StripOfStripped(name);
    LowerOfLowerCase(name);
    RemoveAbsentChar(name, '.');
  }

  /** Every whitelisted name is a fixed point of the normalisation. */
  lemma WhitelistIsNormalized(n: string)
    requires n in Whitelist()
    ensures Normalize(n) == n
  {
    NamesAreCanonical();
    NormalizeCanonical(n);
  }

  /** Normalising twice is normalising once exactly when the first result has no
      surrounding whitespace; deleting a dot can uncover a space at either end. */
  lemma {:induction false} NormalizeIdempotentIff(name: string)
    ensures Normalize(Normalize(name)) == Normalize(name) <==> IsStripped(Normalize(name))
  {
    var n := Normalize(name);
    NormalizeShape(name);
    if IsStripped(n) {
      NormalizeCanonical(n);
    } else {
      assert |Strip(n)| < |n| by {
        if IsSpace(n[0]) {
          assert |TrimStart(n)| < |n|;
        } else {
          assert |TrimEnd(TrimStart(n))| < |n|;
        }
      }
    }
  }

  /** Names without dots normalise idempotently. */
  lemma {:induction false} NormalizeIdempotentWithoutDots(name: string)
    requires '.' !in name
    ensures Normalize(Normalize(name)) == Normalize(name)
  {
    var l := Lower(Strip(name));
    NoDotAfterStripLower(name);
    RemoveAbsentChar(l, '.');
    StripIsStripped(name);
    NormalizeIdempotentIff(name);
  }

  lemma NoDotAfterStripLower(name: string)
    requires '.' !in name
    ensures '.' !in Lower(Strip(name))
  {
    var u := TrimStart(name);
    var t := Strip(name);
    assert '.' !in t by {
      forall i | 0 <= i < |t| ensures t[i] != '.' {
        assert t[i] == u[i];
        assert u[i] == name[|name| - |u| + i];
      }
    }
    var l := Lower(t);
    forall i | 0 <= i < |l| ensures l[i] != '.' {
      assert t[i] in t;
    }
  }

  /** The counterexample to unconditional idempotence: ". a" normalises to " a", which
      normalises to "a". */
  lemma NormalizeNotIdempotent()
    ensures Normalize(". a") == " a"
    ensures Normalize(Normalize(". a")) == "a"
  {
    NormalizeDotSpace();
    NormalizeSpaceA();
  }

  lemma NormalizeDotSpace()
    ensures Normalize(". a") == " a"
  {
    var s := ". a";
    assert IsStripped(s);
    StripOfStripped(s);
    assert HasNoUpper(s);
    LowerOfLowerCase(s);
    assert s[1..] == " a";
    assert RemoveChar(s, '.') == RemoveChar(" a", '.');
    RemoveAbsentChar(" a", '.');
  }

  lemma NormalizeSpaceA()
    ensures Normalize(" a") == "a"
  {
    var s := " a";
    assert SkipSpace(s, 0) == 1;
    assert s[1..] == "a";
    assert TrimStart(s) == "a";
    StripOfStripped("a");
    assert Strip(s) == "a";
    LowerOfLowerCase("a");
    RemoveAbsentChar("a", '.');
  }

  /** Dictionary lookup by exact key. */
  function Find(db: seq<(string, Medicine)>, key: string): Option<Medicine> {
    if db == [] then None
    else if db[0].0 == key then Some(db[0].1)
    else Find(db[1..], key)
  }

  /** The lookup succeeds exactly for a key of `db`, and then yields a record stored under it. */
  lemma {:induction false} FindSpec(db: seq<(string, Medicine)>, key: string)
    ensures Find(db, key).Some? <==> exists k | 0 <= k < |db| :: db[k].0 == key
    ensures Find(db, key).Some? ==> exists k | 0 <= k < |db| :: db[k] == (key, Find(db, key).value)
  {
    if db != [] && db[0].0 != key {
      FindSpec(db[1..], key);
      assert forall k | 0 < k < |db| :: db[k] == db[1..][k - 1];
    }
  }

  /** With distinct keys, the lookup of a key finds the record stored under it. */
  lemma FindStored(db: seq<(string, Medicine)>, k: nat)
    requires k < |db|
    requires forall i, j | 0 <= i < j < |db| :: db[i].0 != db[j].0
    ensures Find(db, db[k].0) == Some(db[k].1)
  {
    var r := Find(db, db[k].0);
    FindSpec(db, db[k].0);
    var j :| 0 <= j < |db| && db[j] == (db[k].0, r.value);
    assert j == k;
  }

  /** The whitelist holds exactly the keys of the database. */
  lemma WhitelistIsKeys(key: string)
    ensures key in Whitelist() <==> exists k | 0 <= k < |Database| :: Database[k].0 == key
  {
    NamesAreKeys();
    if key in Whitelist() {
      var k :| 0 <= k < |Names| && Names[k] == key;
      assert Database[k].0 == key;
    }
  }

  /** `_get_medicine_info(name)`: the record under the normalised name, or `None`. */
  function GetMedicineInfo(name: string): (r: Option<Medicine>)
    ensures r.Some? <==> Normalize(name) in Whitelist()
    ensures r.Some? ==> exists k | 0 <= k < |Database| :: Database[k] == (Normalize(name), r.value)
  {
    WhitelistIsKeys(Normalize(name));
    FindSpec(Database, Normalize(name));
    Find(Database, Normalize(name))
  }

  /** Every whitelisted name finds its own record, whatever its case, surrounding
      whitespace or dots. */
  lemma {:induction false} LookupOfName(k: nat, name: string)
    requires k < |Database|
    requires Normalize(name) == Database[k].0
    ensures GetMedicineInfo(name) == Some(Database[k].1)
  {
    NamesAreKeys();
    NamesAreDistinct();
    FindStored(Database, k);
  }

  /** `GET /medicines/<name>`: 404 for an unknown name, else the normalised name and its record. */
  function GetMedicineDetails(name: string): (r: Result<(string, Medicine), Status>)
    ensures r.Err? <==> Normalize(name) !in Whitelist()
    ensures r.Err? ==> r.error == NotFound
    ensures r.Ok? ==> r.value.0 == Normalize(name)
    ensures r.Ok? ==> exists k | 0 <= k < |Database| :: Database[k] == r.value
  {
    match GetMedicineInfo(name)
    case None => Err(NotFound)
    case Some(info) => Ok((Normalize(name), info))
  }

  /** One entry of `GET /medicines` and of the search results. */
  datatype Summary = Summary(name: string, category: string, uses: seq<string>, dosage: string)

  function SummaryOf(entry: (string, Medicine)): Summary {
    Summary(entry.0, entry.1.category, entry.1.uses, entry.1.dosage)
  }

  /** One summary per record, in order. */
  function SummariesOf(db: seq<(string, Medicine)>): seq<Summary> {
    if db == [] then [] else SummariesOf(db[..|db| - 1]) + [SummaryOf(db[|db| - 1])]
  }

  /** The loop of `list_medicines`. */
  method Summaries(db: seq<(string, Medicine)>) returns (list: seq<Summary>)
    ensures list == SummariesOf(db)
    ensures |list| == |db|
    ensures forall k | 0 <= k < |db| :: list[k] == SummaryOf(db[k])
  {
    list := [];
    var k := 0;
    while k < |db|
      invariant 0 <= k <= |db|
      invariant list == SummariesOf(db[..k])
      invariant |list| == k
      invariant forall j | 0 <= j < k :: list[j] == SummaryOf(db[j])
    {
      list := list + [SummaryOf(db[k])];
      assert db[..k + 1][..k] == db[..k];
      k := k + 1;
    }
    assert db[..|db|] == db;
  }

  /** `GET /medicines`: every record in database order, and their number. */
  method ListMedicines() returns (list: seq<Summary>, total: int)
    ensures |list| == |Database| == total
    ensures forall k | 0 <= k < |Database| :: list[k] == SummaryOf(Database[k])
  {
    list := Summaries(Database);
    total := |list|;
  }

  // ---------------------------------------------------------------- the whitelist validator

  /** An iteration order of the whitelist set: every name exactly once. Python does not
      specify the order in which a set is iterated, so it is a parameter of the model. */
  predicate IsWhitelistOrder(order: seq<string>) {
    HasNoDuplicates(order) && (set w | w in order) == Whitelist()
  }

  /** The names in database order are one such order. */
  lemma NamesAreWhitelistOrder()
    ensures IsWhitelistOrder(Names)
  {
    NamesAreDistinct();
  }

  /** The comma parts: `[p.strip() for p in text.replace(';', ',').split(',') if p.strip()]`. */
  function Parts(text: string): seq<string> {
    StrippedNonEmpty(Split(ReplaceChar(text, ';', ','), ','))
  }

  function StrippedNonEmpty(pieces: seq<string>): (r: seq<string>)
    ensures forall k | 0 <= k < |r| :: r[k] != ""
  {
    if pieces == [] then []
    else (if Strip(pieces[0]) != "" then [Strip(pieces[0])] else []) + StrippedNonEmpty(pieces[1..])
  }

  /** `_normalize_med_name(part.split('(')[0].strip())`. */
  function TokenOf(part: string): string {
    Normalize(Strip(BeforeFirst(part, '(')))
  }

  /** The token of every part. */
  function Tokens(parts: seq<string>): seq<string> {
    seq(|parts|, i requires 0 <= i < |parts| => TokenOf(parts[i]))
  }

  /** `w in token_norm or token_norm in w`. */
  predicate NameMatches(w: string, token: string) {
    Contains(token, w) || Contains(w, token)
  }

  /** The names of `order` that match one token, in `order`'s order. */
  function MatchingNames(order: seq<string>, token: string): seq<string> {
    if order == [] then []
    else
      MatchingNames(order[..|order| - 1], token)
        + (if NameMatches(order[|order| - 1], token) then [order[|order| - 1]] else [])
  }

  /** `candidates` after the loop: for each token in turn, the names it matches. */
  function Candidates(tokens: seq<string>, order: seq<string>): seq<string> {
    if tokens == [] then []
    else Candidates(tokens[..|tokens| - 1], order) + MatchingNames(order, tokens[|tokens| - 1])
  }

  /** What `_extract_valid_meds(text)` returns when the whitelist is iterated in `order`. */
  function ExtractedNames(text: string, order: seq<string>): seq<string> {
    if text == "" then [] else Dedup(Candidates(Tokens(Parts(text)), order))
  }

  /** `_extract_valid_meds(text)`, iterating the whitelist set in `order`. */
  method ExtractValidMeds(text: string, order: seq<string>) returns (out: seq<string>)
    requires IsWhitelistOrder(order)
    ensures out == ExtractedNames(text, order)
  {
    if text == "" {
      return [];
    }
    var parts := Parts(text);
    var candidates := CollectCandidates(parts, order);
    out := Unique(candidates);
  }

  /** The loop over the parts. */
  method CollectCandidates(parts: seq<string>, order: seq<string>) returns (candidates: seq<string>)
    ensures candidates == Candidates(Tokens(parts), order)
  {
    ghost var tokens := Tokens(parts);
    candidates := [];
    var i := 0;
    while i < |parts|
      invariant 0 <= i <= |parts|
      invariant candidates == Candidates(tokens[..i], order)
    {
      var tokenNorm := TokenOf(parts[i]);
      candidates := AppendMatches(candidates, order, tokenNorm);
      CandidatesStep(tokens, order, i);
      i := i + 1;
    }
    assert tokens[..|parts|] == tokens;
  }

  lemma CandidatesStep(tokens: seq<string>, order: seq<string>, i: nat)
    requires i < |tokens|
    ensures Candidates(tokens[..i + 1], order) == Candidates(tokens[..i], order) + MatchingNames(order, tokens[i])
  {
    assert tokens[..i + 1][..i] == tokens[..i];
  }

  /** The loop over the whitelist for one token: appends each name that matches it. */
  method AppendMatches(candidates: seq<string>, order: seq<string>, tokenNorm: string) returns (r: seq<string>)
    ensures r == candidates + MatchingNames(order, tokenNorm)
  {
    r := candidates;
    var j := 0;
    while j < |order|
      invariant 0 <= j <= |order|
      invariant r == candidates + MatchingNames(order[..j], tokenNorm)
    {
      var w := order[j];
      if Contains(tokenNorm, w) || Contains(w, tokenNorm) {
        r := r + [w];
      }
      assert order[..j + 1][..j] == order[..j];
      j := j + 1;
    }
    assert order[..|order|] == order;
  }

  /** The `seen`/`out` loop: keep the first occurrence of each candidate. */
  method Unique(candidates: seq<string>) returns (out: seq<string>)
    ensures out == Dedup(candidates)
  {
    var seen: set<string> := {};
    out := [];
    var k := 0;
    while k < |candidates|
      invariant 0 <= k <= |candidates|
      invariant out == Dedup(candidates[..k])
      invariant seen == set c | c in out
    {
      var c := candidates[k];
      if c !in seen {
        out := out + [c];
        seen := seen + {c};
      }
      assert candidates[..k + 1][..k] == candidates[..k];
      k := k + 1;
    }
    assert candidates[..|candidates|] == candidates;
  }

  // ---------------------------------------------------------------- what the validator guarantees

  lemma {:induction false} MatchingNamesMember(order: seq<string>, token: string, w: string)
    ensures w in MatchingNames(order, token) <==> w in order && NameMatches(w, token)
  {
    if order != [] {
      var init := order[..|order| - 1];
      MatchingNamesMember(init, token, w);
      assert order == init + [order[|order| - 1]];
    }
  }

  /** Some token matches `w`. */
  predicate SomeTokenMatches(tokens: seq<string>, w: string) {
    exists t | t in tokens :: NameMatches(w, t)
  }

  lemma {:induction false} CandidatesMember(tokens: seq<string>, order: seq<string>, w: string)
    ensures w in Candidates(tokens, order) <==> w in order && SomeTokenMatches(tokens, w)
  {
    if tokens != [] {
      var init := tokens[..|tokens| - 1];
      var last := tokens[|tokens| - 1];
      CandidatesMember(init, order, w);
      MatchingNamesMember(order, last, w);
      assert tokens == init + [last];
      assert SomeTokenMatches(tokens, w) <==> SomeTokenMatches(init, w) || NameMatches(w, last);
    }
  }

  /** Only whitelisted names come out, each at most once. */
  lemma ExtractedAreWhitelisted(text: string, order: seq<string>)
    requires IsWhitelistOrder(order)
    ensures forall w | w in ExtractedNames(text, order) :: w in Whitelist()
    ensures HasNoDuplicates(ExtractedNames(text, order))
  {
    if text != "" {
      var c := Candidates(Tokens(Parts(text)), order);
      DedupMembers(c);
      DedupNoDuplicates(c);
      forall w | w in c ensures w in Whitelist() {
        CandidatesMember(Tokens(Parts(text)), order, w);
      }
    }
  }

  lemma TokensMatch(parts: seq<string>, w: string)
    ensures SomeTokenMatches(Tokens(parts), w) <==> exists p | p in parts :: NameMatches(w, TokenOf(p))
  {
    var tokens := Tokens(parts);
    if SomeTokenMatches(tokens, w) {
      var t :| t in tokens && NameMatches(w, t);
      var i :| 0 <= i < |tokens| && tokens[i] == t;
      assert parts[i] in parts && NameMatches(w, TokenOf(parts[i]));
    }
    if exists p | p in parts :: NameMatches(w, TokenOf(p)) {
      var p :| p in parts && NameMatches(w, TokenOf(p));
      var i :| 0 <= i < |parts| && parts[i] == p;
      assert tokens[i] in tokens && NameMatches(w, tokens[i]);
    }
  }

  lemma PartsOfEmpty()
    ensures Parts("") == []
  {
    assert ReplaceChar("", ';', ',') == "";
    assert Split("", ',') == [""];
    assert Strip("") == "";
    assert StrippedNonEmpty([""]) == [];
  }

  /** A name comes out exactly when it is whitelisted and some part's token contains it or
      is contained in it; the order of iteration changes only the order of the result. */
  lemma ExtractedMembers(text: string, order: seq<string>, w: string)
    requires IsWhitelistOrder(order)
    ensures w in ExtractedNames(text, order) <==>
      w in Whitelist() && exists p | p in Parts(text) :: NameMatches(w, TokenOf(p))
  {
    TokensMatch(Parts(text), w);
    if text == "" {
      PartsOfEmpty();
    } else {
      DedupMembers(Candidates(Tokens(Parts(text)), order));
      CandidatesMember(Tokens(Parts(text)), order, w);
    }
  }

  /** The candidates of two runs of tokens are those of the first followed by those of the second. */
  lemma {:induction false} CandidatesAppend(a: seq<string>, b: seq<string>, order: seq<string>)
    ensures Candidates(a + b, order) == Candidates(a, order) + Candidates(b, order)
    decreases |b|
  {
    if b == [] {
      assert a + b == a;
    } else {
      var b' := b[..|b| - 1];
      var x := b[|b| - 1];
      CandidatesAppend(a, b', order);
      assert (a + b)[..|a + b| - 1] == a + b';
      assert (a + b)[|a + b| - 1] == x;
      var ca, cb', m := Candidates(a, order), Candidates(b', order), MatchingNames(order, x);
      assert Candidates(a + b, order) == ca + cb' + m;
      assert Candidates(b, order) == cb' + m;
      assert ca + cb' + m == ca + (cb' + m);
    }
  }

  /** Names first matched by the first `n` parts come before all names first matched later. */
  lemma EarlierPartsFirst(text: string, order: seq<string>, n: nat)
    requires text != ""
    requires n <= |Parts(text)|
    ensures Dedup(Candidates(Tokens(Parts(text)[..n]), order)) <= ExtractedNames(text, order)
  {
    var tokens := Tokens(Parts(text));
    assert Tokens(Parts(text)[..n]) == tokens[..n];
    assert tokens == tokens[..n] + tokens[n..];
    CandidatesAppend(tokens[..n], tokens[n..], order);
    DedupPrefix(Candidates(tokens[..n], order), Candidates(tokens[n..], order));
  }

  /** A part whose token normalises to the empty string, such as "(500mg)" or ".", matches
      every medicine in the database. */
  lemma EmptyTokenMatchesEverything(text: string, order: seq<string>, part: string)
    requires IsWhitelistOrder(order)
    requires part in Parts(text) && TokenOf(part) == ""
    ensures forall w | w in Whitelist() :: w in ExtractedNames(text, order)
  {
    forall w | w in Whitelist() ensures w in ExtractedNames(text, order) {
      ContainsEmpty(w);
      ExtractedMembers(text, order, w);
    }
  }

  lemma DosageTokenIsEmpty()
    ensures TokenOf("(500mg)") == ""
    ensures TokenOf(".") == ""
  {
    assert BeforeFirst("(500mg)", '(') == "";
    assert Strip("") == "";
    assert Lower("") == "";
    assert BeforeFirst(".", '(') == ".";
    assert TrimStart(".") == ".";
    assert Strip(".") == ".";
    assert Lower(".") == ".";
    assert RemoveChar(".", '.') == "";
  }

  // ---------------------------------------------------------------- the details map of an assessment

  /** The `medicine_details` loop of `assess`, for a given lookup: each name the lookup
      knows, mapped to what it finds. */
  method CollectDetails(meds: seq<string>, lookup: string -> Option<Medicine>) returns (details: map<string, Medicine>)
    ensures forall m :: m in details <==> m in meds && lookup(m).Some?
    ensures forall m | m in details :: Some(details[m]) == lookup(m)
  {
    details := map[];
    var i := 0;
    while i < |meds|
      invariant 0 <= i <= |meds|
      invariant forall m :: m in details <==> m in meds[..i] && lookup(m).Some?
      invariant forall m | m in details :: Some(details[m]) == lookup(m)
    {
      var info := lookup(meds[i]);
      if info.Some? {
        details := details[meds[i] := info.value];
      }
      assert meds[..i + 1] == meds[..i] + [meds[i]];
      i := i + 1;
    }
    assert meds[..|meds|] == meds;
  }

  /** The details map of an assessment: every name `_get_medicine_info` knows, with its record. */
  method MedicineDetails(meds: seq<string>) returns (details: map<string, Medicine>)
    ensures forall m :: m in details <==> m in meds && GetMedicineInfo(m).Some?
    ensures forall m | m in details :: Some(details[m]) == GetMedicineInfo(m)
  {
    details := CollectDetails(meds, GetMedicineInfo);
  }

  /** Every validated name has a record, so the details map has exactly the validated names as keys. */
  lemma DetailsCoverWhitelisted(meds: seq<string>)
    requires forall m | m in meds :: m in Whitelist()
    ensures forall m | m in meds :: GetMedicineInfo(m).Some?
  {
    forall m | m in meds ensures GetMedicineInfo(m).Some? {
      WhitelistIsNormalized(m);
    }
  }

  // ---------------------------------------------------------------- search by use

  datatype SearchReply = SearchReply(results: seq<Summary>, count: int, query: string)

  /** Some use of the medicine, lower-cased, contains the query. */
  predicate UseMatches(m: Medicine, query: string) {
    exists u | 0 <= u < |m.uses| :: Contains(Lower(m.uses[u]), query)
  }

  /** The summaries of the records with a matching use, in database order. */
  function SearchResults(db: seq<(string, Medicine)>, query: string): seq<Summary> {
    if db == [] then []
    else
      SearchResults(db[..|db| - 1], query)
        + (if UseMatches(db[|db| - 1].1, query) then [SummaryOf(db[|db| - 1])] else [])
  }

  /** The loop of `search_medicines`: the inner loop stops at the first matching use. */
  method SearchIn(db: seq<(string, Medicine)>, query: string) returns (results: seq<Summary>)
    ensures results == SearchResults(db, query)
  {
    results := [];
    var k := 0;
    while k < |db|
      invariant 0 <= k <= |db|
      invariant results == SearchResults(db[..k], query)
    {
      var uses := db[k].1.uses;
      var u := 0;
      while u < |uses|
        invariant 0 <= u <= |uses|
        invariant forall v | 0 <= v < u :: !Contains(Lower(uses[v]), query)
      {
        if Contains(Lower(uses[u]), query) {
          break;
        }
        u := u + 1;
      }
      if u < |uses| {
        results := results + [SummaryOf(db[k])];
      }
      assert db[..k + 1][..k] == db[..k];
      k := k + 1;
    }
    assert db[..|db|] == db;
  }

  /** `GET /medicines/search?symptom=`: 400 for an empty query, else every medicine with a
      use containing the lower-cased query, once each, with their number. */
  method SearchMedicines(symptom: Option<string>) returns (r: Result<SearchReply, Status>)
    ensures var query := Lower(if symptom.Some? then symptom.value else "");
            && (r.Err? <==> query == "")
            && (r.Err? ==> r.error == BadRequest)
            && (r.Ok? ==> r.value == SearchReply(SearchResults(Database, query), |r.value.results|, query))
  {
    var query := Lower(if symptom.Some? then symptom.value else "");
    if query == "" {
      return Err(BadRequest);
    }
    var results := SearchIn(Database, query);
    r := Ok(SearchReply(results, |results|, query));
  }

  /** A result is the summary of a record with a matching use, and every such record
      gives a result. */
  lemma {:induction false} SearchSoundAndComplete(db: seq<(string, Medicine)>, query: string, s: Summary)
    ensures s in SearchResults(db, query) <==>
      exists k | 0 <= k < |db| :: s == SummaryOf(db[k]) && UseMatches(db[k].1, query)
  {
    if db != [] {
      var init := db[..|db| - 1];
      SearchSoundAndComplete(init, query, s);
      assert forall k | 0 <= k < |init| :: init[k] == db[k];
    }
  }

  /** The results keep database order: they are a subsequence of all summaries. */
  lemma {:induction false} SearchKeepsOrder(db: seq<(string, Medicine)>, query: string)
    ensures IsSubsequence(SearchResults(db, query), SummariesOf(db))
  {
    if db != [] {
      var init := db[..|db| - 1];
      var last := SummaryOf(db[|db| - 1]);
      SearchKeepsOrder(init, query);
      if UseMatches(db[|db| - 1].1, query) {
        SubsequenceAppendBoth(SearchResults(init, query), SummariesOf(init), last);
      } else {
        SubsequenceExtend(SearchResults(init, query), SummariesOf(init), last);
        assert SearchResults(db, query) == SearchResults(init, query);
      }
    }
  }

  /** With distinct keys, no medicine appears twice among the results. */
  lemma {:induction false} SearchNamesDistinct(db: seq<(string, Medicine)>, query: string)
    requires forall i, j | 0 <= i < j < |db| :: db[i].0 != db[j].0
    ensures forall i, j | 0 <= i < j < |SearchResults(db, query)| ::
      SearchResults(db, query)[i].name != SearchResults(db, query)[j].name
  {
    if db != [] {
      var init := db[..|db| - 1];
      SearchNamesDistinct(init, query);
      var r := SearchResults(init, query);
      forall i | 0 <= i < |r| ensures r[i].name != db[|db| - 1].0 {
        SearchSoundAndComplete(init, query, r[i]);
      }
    }
  }

  /** The database keys are distinct, so a search never lists a medicine twice. */
  lemma SearchOfDatabaseDistinct(query: string)
    ensures forall i, j | 0 <= i < j < |SearchResults(Database, query)| ::
      SearchResults(Database, query)[i].name != SearchResults(Database, query)[j].name
  {
    NamesAreKeys();
    NamesAreDistinct();
    SearchNamesDistinct(Database, query);
  }
}
