/** The whitepaper sync tool (`evidence/WhitepaperSyncTool.tsx`): which
    uploaded files are accepted as whitepapers, and the per-whitepaper
    results of saving them all. Reading a file and saving a whitepaper are
    inputs: the read's content or error, and whether each save succeeded. */
module WhitepaperSync {
  import opened Wrappers
  import Text

  // ---------------------------------------------------------------------
  // The known whitepapers
  // ---------------------------------------------------------------------

  /** The entries of `WHITEPAPER_MAPPINGS`. */
  datatype Whitepaper = Recyclability | Compostability | Reusability | Visualization | Calculation

  /** The file name each whitepaper is uploaded under. */
  function FileName(w: Whitepaper): string {
    match w
    case Recyclability => "Recyclability.md"
    case Compostability => "CC-v1.md"
    case Reusability => "RU-v1.md"
    case Visualization => "VIZ-v1.md"
    case Calculation => "Calculation_Methodology.md"
  }

  /** The slug it is saved under. */
  function Slug(w: Whitepaper): string {
    match w
    case Recyclability => "recyclability"
    case Compostability => "compostability"
    case Reusability => "reusability"
    case Visualization => "visualization"
    case Calculation => "calculation-methodology"
  }

  /** Its title. */
  function Title(w: Whitepaper): string {
    match w
    case Recyclability => "Recyclability Methodology"
    case Compostability => "Compostability Methodology (CC-v1)"
    case Reusability => "Reusability Methodology (RU-v1)"
    case Visualization => "Visualization Methodology (VIZ-v1)"
    case Calculation => "Calculation Methodology"
  }

  /** `WHITEPAPER_MAPPINGS[name]`. */
  function Lookup(name: string): (r: Option<Whitepaper>)
    ensures r.Some? ==> FileName(r.value) == name
  {
    if name == "Recyclability.md" then Some(Recyclability)
    else if name == "CC-v1.md" then Some(Compostability)
    else if name == "RU-v1.md" then Some(Reusability)
    else if name == "VIZ-v1.md" then Some(Visualization)
    else if name == "Calculation_Methodology.md" then Some(Calculation)
    else None
  }

  /** The table is a one-to-one correspondence: each whitepaper is found
      under its own file name, and no two share a file name or a slug. */
  lemma MappingInjective(w: Whitepaper, v: Whitepaper)
    ensures Lookup(FileName(w)) == Some(w)
    ensures FileName(w) == FileName(v) ==> w == v
    ensures Slug(w) == Slug(v) ==> w == v
  {
  }

  /** Every mapped file name ends in ".md", so the markdown check never
      turns away a known whitepaper. */
  lemma MappedNamesAreMarkdown(w: Whitepaper)
    ensures Text.EndsWith(FileName(w), ".md")
  {
  }

  // ---------------------------------------------------------------------
  // Loading files
  // ---------------------------------------------------------------------

  /** A chosen file: its name, size, and what reading it gave. */
  datatype File = File(name: string, size: nat, read: Result<string>)

  /** A loaded whitepaper (`WhitepaperFile`). */
  datatype Paper = Paper(slug: string, title: string, filename: string, content: string, size: nat)

  /** One file through `handleFileSelect`'s checks, in order: the
      extension, the mapping, the read, and the content. */
  function Accept(f: File): (r: Result<Paper>)
    ensures r.Ok? <==> Text.EndsWith(f.name, ".md") && Lookup(f.name).Some? && f.read.Ok? && f.read.value != ""
    ensures !Text.EndsWith(f.name, ".md") ==> r == Err(f.name + " is not a markdown file")
    ensures r.Ok? ==>
      var w := Lookup(f.name).value;
      r.value == Paper(Slug(w), Title(w), f.name, f.read.value, f.size)
  {
    if !Text.EndsWith(f.name, ".md") then Err(f.name + " is not a markdown file")
    else match Lookup(f.name)
      case None => Err(f.name + " is not a recognized whitepaper file")
      case Some(w) =>
        match f.read
        case Err(msg) => Err("Failed to read " + f.name + ": " + msg)
        case Ok(content) =>
          if content == "" then Err(f.name + " is empty")
          else Ok(Paper(Slug(w), Title(w), f.name, content, f.size))
  }

  /** The loop over the chosen files: the accepted papers in order, and
      the error messages in order. */
  function LoadAll(files: seq<File>): (r: (seq<Paper>, seq<string>))
    ensures |r.0| + |r.1| == |files|
    ensures forall p :: p in r.0 <==> exists i :: 0 <= i < |files| && Accept(files[i]) == Ok(p)
    decreases |files|
  {
    if |files| == 0 then ([], [])
    else
      var rest := LoadAll(files[1..]);
      assert forall i :: 1 <= i < |files| ==> files[i] == files[1..][i - 1];
      match Accept(files[0])
      case Ok(p) => ([p] + rest.0, rest.1)
      case Err(e) => (rest.0, [e] + rest.1)
  }

  /** Every loaded paper is a known whitepaper with content, carrying its
      mapping's slug and title. */
  lemma LoadedAreKnown(files: seq<File>, p: Paper)
    requires p in LoadAll(files).0
    ensures Lookup(p.filename).Some?
    ensures p.slug == Slug(Lookup(p.filename).value) && p.title == Title(Lookup(p.filename).value)
    ensures p.content != "" && Text.EndsWith(p.filename, ".md")
  {
  }

  /** Files with distinct names give papers with distinct slugs. */
  lemma {:induction false} DistinctNamesDistinctSlugs(files: seq<File>)
    requires forall i, j :: 0 <= i < j < |files| ==> files[i].name != files[j].name
    ensures var ps := LoadAll(files).0;
      forall i, j :: 0 <= i < j < |ps| ==> ps[i].slug != ps[j].slug
    decreases |files|
  {
    if |files| > 0 {
      var rest := files[1..];
      DistinctNamesDistinctSlugs(rest);
      var ps := LoadAll(files).0;
      if Accept(files[0]).Ok? {
        var p := Accept(files[0]).value;
        forall j | 0 < j < |ps| ensures p.slug != ps[j].slug {
          var q := ps[j];
          assert q in LoadAll(rest).0;
          var k :| 0 <= k < |rest| && Accept(rest[k]) == Ok(q);
          MappingInjective(Lookup(files[0].name).value, Lookup(rest[k].name).value);
        }
      }
    }
  }

  /** `handleFileSelect`: no files leaves the list alone; otherwise the
      accepted papers replace the previous list. */
  function SelectFiles(current: seq<Paper>, files: seq<File>): (r: (seq<Paper>, seq<string>))
    ensures |files| == 0 ==> r == (current, [])
    ensures |files| > 0 ==> r == LoadAll(files)
  {
    if |files| == 0 then (current, []) else LoadAll(files)
  }

  // ---------------------------------------------------------------------
  // Syncing
  // ---------------------------------------------------------------------

  /** A whitepaper's sync status. */
  datatype Status = Pending | Success | Failure

  /** The slugs of the papers. */
  function Slugs(ps: seq<Paper>): set<string> {
    set i | 0 <= i < |ps| :: ps[i].slug
  }

  /** The results before any save: every slug pending. */
  function AllPending(ps: seq<Paper>): (m: map<string, Status>)
    ensures m.Keys == Slugs(ps)
  {
    map s | s in Slugs(ps) :: Pending
  }

  /** The save loop over the first papers: each paper's slug takes the
      outcome of its save, a later paper overwriting an earlier one. */
  function Run(init: map<string, Status>, ps: seq<Paper>, saved: seq<bool>): (m: map<string, Status>)
    requires |saved| == |ps|
    ensures m.Keys == init.Keys + Slugs(ps)
    ensures forall s :: s in Slugs(ps) ==> m[s] != Pending
    ensures forall s :: s in init && s !in Slugs(ps) ==> m[s] == init[s]
    decreases |ps|
  {
    if |ps| == 0 then init
    else
      var n := |ps| - 1;
      assert Slugs(ps) == Slugs(ps[..n]) + {ps[n].slug};
      Run(init, ps[..n], saved[..n])[ps[n].slug := if saved[n] then Success else Failure]
  }

  /** With distinct slugs, each paper's status is its own save's outcome. */
  lemma {:induction false} RunRecordsOutcome(init: map<string, Status>, ps: seq<Paper>, saved: seq<bool>, i: nat)
    requires |saved| == |ps| && i < |ps|
    requires forall a, b :: 0 <= a < b < |ps| ==> ps[a].slug != ps[b].slug
    ensures Run(init, ps, saved)[ps[i].slug] == if saved[i] then Success else Failure
    decreases |ps|
  {
    var n := |ps| - 1;
    if i < n {
      RunRecordsOutcome(init, ps[..n], saved[..n], i);
    }
  }

  /** The outcome of "Sync all". */
  datatype Summary = Summary(results: map<string, Status>, successes: nat, failures: nat)

  /** The number of slugs with the status. */
  function CountOf(m: map<string, Status>, st: Status): nat {
    |set s | s in m && m[s] == st|
  }

  /** With nothing pending, each slug is counted once: as saved or as
      failed. */
  lemma CountsCoverKeys(m: map<string, Status>)
    requires forall s :: s in m ==> m[s] != Pending
    ensures CountOf(m, Success) + CountOf(m, Failure) == |m.Keys|
  {
    var good := set s | s in m && m[s] == Success;
    var bad := set s | s in m && m[s] == Failure;
    assert good + bad == m.Keys;
    assert good * bad == {};
    assert |good + bad| == |good| + |bad|;
  }

  /** `handleSyncAll`, with each save's success as input: refused with no
      papers; otherwise every slug ends saved or failed and the summary
      counts both. */
  function SyncAll(ps: seq<Paper>, saved: seq<bool>): (r: Result<Summary>)
    requires |saved| == |ps|
    ensures r.Err? <==> |ps| == 0
    ensures r.Ok? ==> r.value.results.Keys == Slugs(ps)
    ensures r.Ok? ==> forall s :: s in r.value.results ==> r.value.results[s] != Pending
    ensures r.Ok? ==> r.value.successes + r.value.failures == |Slugs(ps)|
  {
    if |ps| == 0 then Err("No whitepapers loaded. Please upload files first.")
    else
      var m := Run(AllPending(ps), ps, saved);
      CountsCoverKeys(m);
      Ok(Summary(m, CountOf(m, Success), CountOf(m, Failure)))
  }

  /** Distinct slugs count once each. */
  lemma {:induction false} SlugsCount(ps: seq<Paper>)
    requires forall i, j :: 0 <= i < j < |ps| ==> ps[i].slug != ps[j].slug
    ensures |Slugs(ps)| == |ps|
    decreases |ps|
  {
    if |ps| > 0 {
      var n := |ps| - 1;
      SlugsCount(ps[..n]);
      assert Slugs(ps) == Slugs(ps[..n]) + {ps[n].slug};
      assert ps[n].slug !in Slugs(ps[..n]);
    }
  }

  /** When the files chosen have distinct names, the summary accounts for
      every loaded paper: successes and failures add up to their number. */
  lemma SyncAccountsForAll(files: seq<File>, saved: seq<bool>)
    requires forall i, j :: 0 <= i < j < |files| ==> files[i].name != files[j].name
    requires |saved| == |LoadAll(files).0| > 0
    ensures var r := SyncAll(LoadAll(files).0, saved);
      r.Ok? && r.value.successes + r.value.failures == |LoadAll(files).0|
  {
    DistinctNamesDistinctSlugs(files);
    SlugsCount(LoadAll(files).0);
  }
}
