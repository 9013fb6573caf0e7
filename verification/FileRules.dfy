/** Which vault paths are synced, and the names of conflict copies, which never should be. */
module FileRules {
  import opened Common

  type Path = string

  // ---------------------------------------------------------------- strings

  predicate IsDigit(c: char) { '0' <= c <= '9' }

  predicate AllDigits(s: string) { forall c | c in s :: IsDigit(c) }

  /** The characters String.prototype.trim removes. */
  predicate IsBlank(c: char) {
    || c in {'\t', '\n', '\U{000B}', '\U{000C}', '\r', ' ', '\U{00A0}', '\U{1680}', '\U{2028}', '\U{2029}',
             '\U{202F}', '\U{205F}', '\U{3000}', '\U{FEFF}'}
    || '\U{2000}' <= c <= '\U{200A}'
  }

  predicate Removable(c: char, slashes: bool) { if slashes then c == '/' else IsBlank(c) }

  function StripStart(s: string, slashes: bool): string {
    if s != [] && Removable(s[0], slashes) then StripStart(s[1..], slashes) else s
  }

  function StripEnd(s: string, slashes: bool): string {
    if s != [] && Removable(s[|s| - 1], slashes) then StripEnd(s[..|s| - 1], slashes) else s
  }

  function NormalizeVaultPath(path: Path): Path {
    StripEnd(StripStart(StripEnd(StripStart(path, false), false), true), true)
  }

  /** The last index of `c`, or None. */
  function LastIndexOf(s: string, c: char): (r: Option<nat>)
    ensures r.None? ==> forall k | 0 <= k < |s| :: s[k] != c
    ensures r.Some? ==> r.value < |s| && s[r.value] == c && forall k | r.value < k < |s| :: s[k] != c
  {
    if s == [] then None
    else if s[|s| - 1] == c then Some(|s| - 1)
    else LastIndexOf(s[..|s| - 1], c)
  }

  lemma LastIndexIs(s: string, c: char, i: nat)
    requires i < |s| && s[i] == c && forall k | i < k < |s| :: s[k] != c
    ensures LastIndexOf(s, c) == Some(i)
  {
  }

  lemma LastIndexIsNone(s: string, c: char)
    requires forall k | 0 <= k < |s| :: s[k] != c
    ensures LastIndexOf(s, c) == None
  {
  }

  /** The last path component. */
  function BaseName(path: Path): string {
    var slash := LastIndexOf(path, '/');
    if slash.Some? then path[slash.value + 1..] else path
  }

  // ---------------------------------------------------------------- conflict copies

  const MARK := ".sync-conflict-"

  /** Eight digits, a dash, six digits: a date with a four-digit year and a time. */
  predicate IsTimestamp(s: string) {
    |s| == 15 && AllDigits(s[..8]) && s[8] == '-' && AllDigits(s[9..])
  }

  predicate IsCounter(s: string) { s == "" || (|s| > 1 && s[0] == '-' && AllDigits(s[1..])) }

  predicate IsSuffix(s: string) { s == "" || (|s| > 1 && s[0] == '.' && forall k | 1 <= k < |s| :: s[k] != '.' && s[k] != '/') }

  /** The parts of a name that the pattern for conflict copies can match at its end. */
  datatype Parts = Parts(stem: string, timestamp: string, counter: string, suffix: string)

  predicate Matches(name: string, p: Parts) {
    && name == p.stem + MARK + p.timestamp + p.counter + p.suffix
    && IsTimestamp(p.timestamp) && IsCounter(p.counter) && IsSuffix(p.suffix)
  }

  /** /\.sync-conflict-\d{8}-\d{6}(?:-\d+)?(?:\.[^/.]+)?$/ on the last path component. */
  ghost predicate IsSyncConflictFile(path: Path) {
    exists p :: Matches(BaseName(path), p)
  }

  function Digits(n: nat): (s: string)
    ensures |s| > 0 && AllDigits(s)
  {
    if n < 10 then [('0' as int + n) as char] else Digits(n / 10) + [('0' as int + n % 10) as char]
  }

  lemma DigitsLong(n: nat)
    requires n >= 10
    ensures |Digits(n)| > 1 && Digits(n)[..|Digits(n)| - 1] == Digits(n / 10)
  {
  }

  lemma DigitsAreInjective(a: nat, b: nat)
    requires Digits(a) == Digits(b)
    ensures a == b
  {
    if a >= 10 { DigitsLong(a); }
    if b >= 10 { DigitsLong(b); }
    var s, t := Digits(a), Digits(b);
    assert s[|s| - 1] == t[|t| - 1];
    if a >= 10 && b >= 10 {
      DigitsAreInjective(a / 10, b / 10);
    }
  }

  function Counter(attempt: nat): string {
    if attempt == 0 then "" else "-" + Digits(attempt + 1)
  }

  /** The extension with its dot; a leading dot starts no extension. */
  function Extension(fileName: string): (e: string)
    ensures |e| <= |fileName| && fileName == fileName[..|fileName| - |e|] + e
    ensures e != "" ==> e[0] == '.' && forall k | 1 <= k < |e| :: e[k] != '.'
    ensures (exists k :: 0 < k < |fileName| && fileName[k] == '.') ==> e != ""
  {
    var dot := LastIndexOf(fileName, '.');
    if dot.Some? && dot.value > 0 then fileName[dot.value..] else ""
  }

  function Stem(fileName: string): string { fileName[..|fileName| - |Extension(fileName)|] }

  function ParentPrefix(path: Path): string {
    var slash := LastIndexOf(path, '/');
    if slash.Some? && path[..slash.value] != "" then path[..slash.value] + "/" else ""
  }

  function BuildConflictCopyPath(path: Path, timestamp: string, attempt: nat): Path {
    var fileName := BaseName(path);
    ParentPrefix(path) + Stem(fileName) + MARK + timestamp + Counter(attempt) + Extension(fileName)
  }

  lemma CancelMiddle(head: string, x: string, y: string, tail: string)
    requires head + x + tail == head + y + tail
    ensures x == y
  {
    assert |head + x + tail| == |head + y + tail|;
    assert x == (head + x + tail)[|head|..|head| + |x|];
    assert y == (head + y + tail)[|head|..|head| + |y|];
  }

  /** Two attempts never yield the same path. */
  lemma AttemptsDiffer(path: Path, timestamp: string, a: nat, b: nat)
    requires BuildConflictCopyPath(path, timestamp, a) == BuildConflictCopyPath(path, timestamp, b)
    ensures a == b
  {
    var fileName := BaseName(path);
    CancelMiddle(ParentPrefix(path) + Stem(fileName) + MARK + timestamp, Counter(a), Counter(b), Extension(fileName));
    if a != 0 && b != 0 {
      assert Counter(a)[1..] == Digits(a + 1) && Counter(b)[1..] == Digits(b + 1);
      DigitsAreInjective(a + 1, b + 1);
    }
  }

  /** The first attempt from `attempt` on whose path does not exist. */
  function FreeFrom(existing: set<Path>, path: Path, timestamp: string, attempt: nat): Path
    decreases |existing|
  {
    var candidate := BuildConflictCopyPath(path, timestamp, attempt);
    if candidate in existing then FreeFrom(existing - {candidate}, path, timestamp, attempt + 1) else candidate
  }

  function AvailableConflictCopyPath(existing: set<Path>, path: Path, timestamp: string): Path {
    FreeFrom(existing, path, timestamp, 0)
  }

  lemma FreeFromIsFree(existing: set<Path>, path: Path, timestamp: string, attempt: nat)
    ensures var free := FreeFrom(existing, path, timestamp, attempt);
      && free !in existing
      && exists n: nat :: attempt <= n <= attempt + |existing| && free == BuildConflictCopyPath(path, timestamp, n)
    decreases |existing|
  {
    var candidate := BuildConflictCopyPath(path, timestamp, attempt);
    if candidate in existing {
      var smaller := existing - {candidate};
      FreeFromIsFree(smaller, path, timestamp, attempt + 1);
      var free := FreeFrom(smaller, path, timestamp, attempt + 1);
      var n: nat :| attempt + 1 <= n <= attempt + 1 + |smaller| && free == BuildConflictCopyPath(path, timestamp, n);
      assert free != candidate by {
        if free == candidate { AttemptsDiffer(path, timestamp, attempt, n); }
      }
      assert n <= attempt + |existing|;
    } else {
      assert attempt <= attempt <= attempt + |existing|;
    }
  }

  /** Tries names until one is free; needs at most one attempt more than there are existing paths. */
  method GetAvailableConflictCopyPath(existing: set<Path>, path: Path, timestamp: string) returns (conflictPath: Path)
    ensures conflictPath == AvailableConflictCopyPath(existing, path, timestamp)
    ensures conflictPath !in existing
    ensures exists n: nat ::
      && n <= |existing|
      && conflictPath == BuildConflictCopyPath(path, timestamp, n)
      && (forall k: nat | k < n :: BuildConflictCopyPath(path, timestamp, k) in existing)
  {
    hide BuildConflictCopyPath;
    var attempt: nat := 0;
    ghost var left := existing;
    conflictPath := BuildConflictCopyPath(path, timestamp, attempt);
    while conflictPath in existing
      invariant conflictPath == BuildConflictCopyPath(path, timestamp, attempt)
      invariant left <= existing && |left| == |existing| - attempt
      invariant forall n: nat | n >= attempt :: BuildConflictCopyPath(path, timestamp, n) in existing
                  ==> BuildConflictCopyPath(path, timestamp, n) in left
      invariant forall k: nat | k < attempt :: BuildConflictCopyPath(path, timestamp, k) in existing
      invariant FreeFrom(left, path, timestamp, attempt) == AvailableConflictCopyPath(existing, path, timestamp)
      decreases |left|
    {
      forall n: nat | n >= attempt + 1 && BuildConflictCopyPath(path, timestamp, n) in existing
        ensures BuildConflictCopyPath(path, timestamp, n) in left - {conflictPath}
      {
        if BuildConflictCopyPath(path, timestamp, n) == conflictPath { AttemptsDiffer(path, timestamp, n, attempt); }
      }
      left := left - {conflictPath};
      attempt := attempt + 1;
      conflictPath := BuildConflictCopyPath(path, timestamp, attempt);
    }
    assert conflictPath !in left;
    assert attempt <= |existing|;
  }

  // ---------------------------------------------------------------- recognition

  datatype SyncFileRules = SyncFileRules(includeImages: bool, includeAudio: bool, includeVideos: bool, includePdf: bool,
    includeOtherFiles: bool, excludedFolders: seq<Path>, includedHiddenFolders: seq<Path>)

  const IMAGE_EXTENSIONS := {"png", "jpg", "jpeg", "gif", "webp", "svg", "avif", "heic", "bmp", "ico"}
  const AUDIO_EXTENSIONS := {"mp3", "m4a", "wav", "flac", "ogg", "aac"}
  const VIDEO_EXTENSIONS := {"mp4", "mov", "mkv", "webm", "avi", "m4v"}
  const PDF_EXTENSIONS := {"pdf"}
  const RESERVED_SEGMENTS := {".git", ".trash", ".synch", "node_modules"}

  /** The components of a path, empty ones included. */
  function Segments(path: Path): (segments: seq<string>)
    ensures segments != []
  {
    if path == "" then [""]
    else
      var rest := Segments(path[1..]);
      if path[0] == '/' then [""] + rest else [[path[0]] + rest[0]] + rest[1..]
  }

  predicate HasHiddenSegment(path: Path) { exists s | s in Segments(path) :: "." <= s }

  predicate IsUnderFolders(path: Path, folders: seq<Path>) { exists f | f in folders :: path == f || f + "/" <= path }

  /** Inside a folder that is never synced, or in the config folder, which has rules of its own. */
  predicate IsReservedSyncPath(path: Path, configDir: Path) {
    var normalized := NormalizeVaultPath(path);
    normalized != ""
    && ((exists s | s in Segments(normalized) :: s in RESERVED_SEGMENTS)
        || (configDir != "" && Segments(normalized)[0] == configDir))
  }

  /** Lower case as far as it can tell an extension: the Kelvin sign is the one other character whose lower case is a letter from a to z. */
  function LowerChar(c: char): char {
    if 'A' <= c <= 'Z' then (c as int + 32) as char else if c == '\U{212A}' then 'k' else c
  }

  function Lower(s: string): string { if s == "" then "" else [LowerChar(s[0])] + Lower(s[1..]) }

  function FileExtension(path: Path): string {
    var name := BaseName(path);
    var dot := LastIndexOf(name, '.');
    if dot.None? then "" else Lower(name[dot.value + 1..])
  }

  predicate IncludesExtension(rules: SyncFileRules, extension: string) {
    if extension == "md" then true
    else if extension in IMAGE_EXTENSIONS then rules.includeImages
    else if extension in AUDIO_EXTENSIONS then rules.includeAudio
    else if extension in VIDEO_EXTENSIONS then rules.includeVideos
    else if extension in PDF_EXTENSIONS then rules.includePdf
    else rules.includeOtherFiles
  }

  ghost predicate ShouldSyncPath(path: Path, rules: SyncFileRules, configDir: Path) {
    var normalized := NormalizeVaultPath(path);
    && normalized != ""
    && !IsSyncConflictFile(normalized)
    && !IsUnderFolders(normalized, rules.excludedFolders)
    && !IsReservedSyncPath(normalized, configDir)
    && (HasHiddenSegment(normalized) ==> IsUnderFolders(normalized, rules.includedHiddenFolders))
    && IncludesExtension(rules, FileExtension(normalized))
  }

  // ---------------------------------------------------------------- what the rules decide

  /** At least as much is included, and no more excluded. */
  ghost predicate IncludesMore(rules: SyncFileRules, more: SyncFileRules) {
    && (rules.includeImages ==> more.includeImages) && (rules.includeAudio ==> more.includeAudio)
    && (rules.includeVideos ==> more.includeVideos) && (rules.includePdf ==> more.includePdf)
    && (rules.includeOtherFiles ==> more.includeOtherFiles)
    && (forall f | f in more.excludedFolders :: f in rules.excludedFolders)
    && (forall f | f in rules.includedHiddenFolders :: f in more.includedHiddenFolders)
  }

  /** Including more never takes a path out. */
  lemma MoreRulesSyncMore(path: Path, rules: SyncFileRules, more: SyncFileRules, configDir: Path)
    requires IncludesMore(rules, more) && ShouldSyncPath(path, rules, configDir)
    ensures ShouldSyncPath(path, more, configDir)
  {
    hide NormalizeVaultPath, IsSyncConflictFile, IsReservedSyncPath, HasHiddenSegment, FileExtension;
  }

  /** Some rules sync a path if and only if it has a name, is no conflict copy and lies in no reserved place. */
  lemma SyncedUnderSomeRules(path: Path, configDir: Path)
    ensures var normalized := NormalizeVaultPath(path);
      (exists rules :: ShouldSyncPath(path, rules, configDir)) <==>
        normalized != "" && !IsSyncConflictFile(normalized) && !IsReservedSyncPath(normalized, configDir)
  {
    var normalized := NormalizeVaultPath(path);
    hide NormalizeVaultPath, IsSyncConflictFile, IsReservedSyncPath, HasHiddenSegment, FileExtension;
    if normalized != "" && !IsSyncConflictFile(normalized) && !IsReservedSyncPath(normalized, configDir) {
      var everything := SyncFileRules(true, true, true, true, true, [], [normalized]);
      assert normalized in everything.includedHiddenFolders;
      assert ShouldSyncPath(path, everything, configDir);
    }
  }

  /** Excluding one more folder takes out exactly the folder itself and what lies in it, at any depth. */
  lemma FolderTakesItsOwn(path: Path, rules: SyncFileRules, folder: Path, configDir: Path)
    ensures var normalized := NormalizeVaultPath(path);
      ShouldSyncPath(path, rules.(excludedFolders := rules.excludedFolders + [folder]), configDir) <==>
        ShouldSyncPath(path, rules, configDir)
        && normalized != folder && !(|normalized| > |folder| && normalized[..|folder| + 1] == folder + "/")
  {
    var more := rules.excludedFolders + [folder];
    assert forall f :: f in more <==> f in rules.excludedFolders || f == folder;
    hide NormalizeVaultPath, IsSyncConflictFile, IsReservedSyncPath, HasHiddenSegment, FileExtension;
  }

  /** A path none of whose segments starts with a dot is judged without the hidden folders; any other one is synced only under
      one of them. */
  lemma HiddenNeedsAFolder(path: Path, rules: SyncFileRules, folders: seq<Path>, configDir: Path)
    ensures var normalized := NormalizeVaultPath(path);
      var shown := forall s | s in Segments(normalized) :: s == "" || s[0] != '.';
      && (shown ==>
            (ShouldSyncPath(path, rules, configDir) <==>
              ShouldSyncPath(path, rules.(includedHiddenFolders := folders), configDir)))
      && (!shown && ShouldSyncPath(path, rules, configDir) ==>
            exists f | f in rules.includedHiddenFolders :: normalized == f || f + "/" <= normalized)
  {
    var normalized := NormalizeVaultPath(path);
    assert HasHiddenSegment(normalized) <==> exists s | s in Segments(normalized) :: s != "" && s[0] == '.';
    hide NormalizeVaultPath, IsSyncConflictFile, IsReservedSyncPath, HasHiddenSegment, FileExtension;
  }

  /** Notes are synced whatever kinds are included; of the kinds, only the flag of the file's own matters. */
  lemma OneFlagMatters(path: Path, rules: SyncFileRules, other: SyncFileRules, configDir: Path)
    requires other.excludedFolders == rules.excludedFolders && other.includedHiddenFolders == rules.includedHiddenFolders
    requires var extension := FileExtension(NormalizeVaultPath(path));
      || extension == "md"
      || (extension in IMAGE_EXTENSIONS && other.includeImages == rules.includeImages)
      || (extension in AUDIO_EXTENSIONS && other.includeAudio == rules.includeAudio)
      || (extension in VIDEO_EXTENSIONS && other.includeVideos == rules.includeVideos)
      || (extension == "pdf" && other.includePdf == rules.includePdf)
      || (extension !in IMAGE_EXTENSIONS + AUDIO_EXTENSIONS + VIDEO_EXTENSIONS + {"md", "pdf"}
          && other.includeOtherFiles == rules.includeOtherFiles)
    ensures ShouldSyncPath(path, other, configDir) == ShouldSyncPath(path, rules, configDir)
  {
    hide NormalizeVaultPath, IsSyncConflictFile, IsReservedSyncPath, HasHiddenSegment, FileExtension;
  }

  /** No extension, or one with a character after the dot that trimming keeps. */
  ghost predicate KeepsSuffix(extension: string) {
    extension == "" || exists k :: 1 <= k < |extension| && !IsBlank(extension[k])
  }

  lemma {:induction false} LastIndexSkips(head: string, tail: string, c: char)
    requires forall k | 0 <= k < |tail| :: tail[k] != c
    ensures LastIndexOf(head + tail, c) == LastIndexOf(head, c)
    decreases |tail|
  {
    if tail == "" {
      assert head + tail == head;
    } else {
      assert (head + tail)[..|head + tail| - 1] == head + tail[..|tail| - 1];
      LastIndexSkips(head, tail[..|tail| - 1], c);
    }
  }

  lemma BaseOf(head: string, tail: string)
    requires forall k | 0 <= k < |tail| :: tail[k] != '/'
    ensures BaseName(head + tail) == BaseName(head) + tail
  {
    LastIndexSkips(head, tail, '/');
    var slash := LastIndexOf(head, '/');
    if slash.Some? {
      assert (head + tail)[slash.value + 1..] == head[slash.value + 1..] + tail;
    }
  }

  function Tail(timestamp: string, counter: string, suffix: string): string {
    MARK + timestamp + counter + suffix
  }

  /** Recognized when the name ends in the mark, a timestamp, an optional counter and a proper suffix. */
  lemma Recognized(head: string, timestamp: string, counter: string, suffix: string)
    requires IsTimestamp(timestamp) && IsCounter(counter) && IsSuffix(suffix)
    ensures IsSyncConflictFile(head + Tail(timestamp, counter, suffix))
  {
    TailHasNoSlash(timestamp, counter, suffix);
    hide IsTimestamp, IsCounter, IsSuffix, LastIndexOf, BaseName;
    BaseOf(head, Tail(timestamp, counter, suffix));
    var stem := BaseName(head);
    assert stem + Tail(timestamp, counter, suffix) == stem + MARK + timestamp + counter + suffix;
    assert Matches(stem + Tail(timestamp, counter, suffix), Parts(stem, timestamp, counter, suffix));
  }

  lemma DigitsHaveNoSlash(s: string)
    requires AllDigits(s)
    ensures forall k | 0 <= k < |s| :: s[k] != '/' && !IsBlank(s[k])
  {
    forall k | 0 <= k < |s| ensures s[k] != '/' && !IsBlank(s[k]) {
      assert s[k] in s;
    }
  }

  lemma NumberHasNoSlash(timestamp: string, counter: string)
    requires IsTimestamp(timestamp) && IsCounter(counter)
    ensures forall k | 0 <= k < |timestamp + counter| :: (timestamp + counter)[k] != '/'
    ensures !IsBlank((timestamp + counter)[|timestamp + counter| - 1])
  {
    DigitsHaveNoSlash(timestamp[..8]);
    DigitsHaveNoSlash(timestamp[9..]);
    assert timestamp == timestamp[..8] + [timestamp[8]] + timestamp[9..];
    if counter != "" {
      DigitsHaveNoSlash(counter[1..]);
      assert counter == [counter[0]] + counter[1..];
    }
  }

  lemma TailHasNoSlash(timestamp: string, counter: string, suffix: string)
    requires IsTimestamp(timestamp) && IsCounter(counter)
    requires forall k | 0 <= k < |suffix| :: suffix[k] != '/'
    ensures var tail := Tail(timestamp, counter, suffix);
      forall k | 0 <= k < |tail| :: tail[k] != '/'
  {
    NumberHasNoSlash(timestamp, counter);
    hide IsTimestamp, IsCounter;
    assert Tail(timestamp, counter, suffix) == MARK + (timestamp + counter) + suffix;
  }

  /** Never recognized when the name ends in a dot. */
  lemma EndsInDot(path: Path)
    requires path != "" && path[|path| - 1] == '.'
    ensures !IsSyncConflictFile(path)
  {
    var name := BaseName(path);
    assert name != "" && name[|name| - 1] == '.';
    forall p ensures !Matches(name, p) {
      if Matches(name, p) {
        LastOfMatch(name, p);
      }
    }
  }

  lemma LastOfMatch(name: string, p: Parts)
    requires Matches(name, p)
    ensures name != "" && name[|name| - 1] != '.'
  {
    if p.suffix != "" {
      assert name[|name| - 1] == p.suffix[|p.suffix| - 1];
    } else if p.counter != "" {
      assert name[|name| - 1] == p.counter[|p.counter| - 1];
      assert p.counter[1..][|p.counter| - 2] in p.counter[1..];
    } else {
      assert name[|name| - 1] == p.timestamp[14];
      assert p.timestamp[9..][5] in p.timestamp[9..];
    }
  }

  // ---------------------------------------------------------------- trimming a conflict copy's path

  lemma {:induction false} StripStartStops(head: string, tail: string, slashes: bool)
    requires tail != "" && !Removable(tail[0], slashes)
    ensures StripStart(head + tail, slashes) == StripStart(head, slashes) + tail
  {
    if head != "" && Removable(head[0], slashes) {
      assert (head + tail)[1..] == head[1..] + tail;
      StripStartStops(head[1..], tail, slashes);
    } else if head == "" {
      assert head + tail == tail;
    }
  }

  lemma {:induction false} StripEndStops(head: string, tail: string, slashes: bool)
    requires tail != "" && !Removable(tail[0], slashes)
    ensures StripEnd(head + tail, slashes) == head + StripEnd(tail, slashes)
    ensures StripEnd(tail, slashes) != "" && StripEnd(tail, slashes) <= tail
    decreases |tail|
  {
    if Removable(tail[|tail| - 1], slashes) {
      assert (head + tail)[..|head + tail| - 1] == head + tail[..|tail| - 1];
      StripEndStops(head, tail[..|tail| - 1], slashes);
    }
  }

  /** Trimming an extension leaves only its dot exactly when all the rest is blank. */
  lemma {:induction false} TrimmedExtension(extension: string)
    requires extension != "" && extension[0] == '.'
    ensures StripEnd(extension, false) <= extension && StripEnd(extension, false) != ""
    ensures StripEnd(extension, false) == "." <==> !KeepsSuffix(extension)
  {
    if IsBlank(extension[|extension| - 1]) {
      var rest := extension[..|extension| - 1];
      TrimmedExtension(rest);
      assert KeepsSuffix(extension) <==> KeepsSuffix(rest) by {
        if KeepsSuffix(extension) {
          var k :| 1 <= k < |extension| && !IsBlank(extension[k]);
          assert !IsBlank(rest[k]);
        }
        if KeepsSuffix(rest) {
          var k :| 1 <= k < |rest| && !IsBlank(rest[k]);
          assert !IsBlank(extension[k]);
        }
      }
    } else if |extension| > 1 {
      assert !IsBlank(extension[|extension| - 1]);
    }
  }

  /** Normalizing touches a conflict copy's path only before its mark and after its counter. */
  lemma NormalizedCopy(head: string, timestamp: string, counter: string, extension: string)
    returns (front: string, suffix: string)
    requires IsTimestamp(timestamp) && IsCounter(counter)
    requires extension == "" || (extension[0] == '.' && forall k | 1 <= k < |extension| :: extension[k] != '.')
    requires forall k | 0 <= k < |extension| :: extension[k] != '/'
    ensures NormalizeVaultPath(head + Tail(timestamp, counter, extension)) == front + Tail(timestamp, counter, suffix)
    ensures if KeepsSuffix(extension) then IsSuffix(suffix) else suffix == "."
  {
    var number := timestamp + counter;
    NumberHasNoSlash(timestamp, counter);
    suffix := StripEnd(extension, false);
    TailHasNoSlash(timestamp, counter, extension);
    hide IsTimestamp, IsCounter;
    var tail := Tail(timestamp, counter, extension);
    var trimmed := Tail(timestamp, counter, suffix);
    assert StripEnd(tail, false) == trimmed && trimmed <= tail by {
      if extension != "" {
        TrimmedExtension(extension);
        StripEndStops(MARK + timestamp + counter, extension, false);
      } else {
        assert tail == MARK + number;
      }
    }
    assert tail[0] == '.' && trimmed[0] == '.';
    StripStartStops(head, tail, false);
    var first := StripStart(head, false);
    StripEndStops(first, tail, false);
    front := StripStart(first, true);
    StripStartStops(first, trimmed, true);
    assert trimmed[|trimmed| - 1] == tail[|trimmed| - 1] != '/';
    assert StripEnd(front + trimmed, true) == front + trimmed;
    if extension != "" {
      TrimmedExtension(extension);
      assert |suffix| == 1 ==> suffix == ".";
    }
  }

  lemma SlashFreeExtension(path: Path)
    ensures forall k | 0 <= k < |Extension(BaseName(path))| :: Extension(BaseName(path))[k] != '/'
  {
    var name := BaseName(path);
    var extension := Extension(name);
    forall k | 0 <= k < |extension| ensures extension[k] != '/' {
      assert extension[k] == name[|name| - |extension| + k];
    }
  }

  lemma CounterIsCounter(attempt: nat)
    ensures IsCounter(Counter(attempt))
  {
    if attempt != 0 { assert Counter(attempt)[1..] == Digits(attempt + 1); }
  }

  /** The parts of a conflict copy's path. */
  lemma CopyShape(path: Path, timestamp: string, attempt: nat) returns (head: string)
    ensures IsCounter(Counter(attempt))
    ensures BuildConflictCopyPath(path, timestamp, attempt)
      == head + Tail(timestamp, Counter(attempt), Extension(BaseName(path)))
    ensures var extension := Extension(BaseName(path)); forall k | 0 <= k < |extension| :: extension[k] != '/'
  {
    var name := BaseName(path);
    head := ParentPrefix(path) + Stem(name);
    SlashFreeExtension(path);
    CounterIsCounter(attempt);
    hide LastIndexOf, BaseName, Stem, Extension, ParentPrefix, Counter, IsCounter;
  }

  /**
   * A conflict copy is recognized as one, whatever the other rules, exactly when the
   * extension of the original name is empty or has a character that trimming keeps.
   */
  lemma ConflictCopyIsRecognized(path: Path, timestamp: string, attempt: nat)
    requires IsTimestamp(timestamp)
    ensures var normalized := NormalizeVaultPath(BuildConflictCopyPath(path, timestamp, attempt));
      normalized != "" && (IsSyncConflictFile(normalized) <==> KeepsSuffix(Extension(BaseName(path))))
  {
    var head := CopyShape(path, timestamp, attempt);
    var extension := Extension(BaseName(path));
    var front, suffix := NormalizedCopy(head, timestamp, Counter(attempt), extension);
    if KeepsSuffix(extension) {
      Recognized(front, timestamp, Counter(attempt), suffix);
    } else {
      EndsInDot(front + Tail(timestamp, Counter(attempt), suffix));
    }
  }

  /**
   * No file rules sync a conflict copy exactly when the original's extension is empty or not blank throughout, or
   * when the copy lies in a reserved place, which no rules sync whatever its name.
   */
  lemma ConflictCopyIsNeverSynced(path: Path, timestamp: string, attempt: nat, configDir: Path)
    requires IsTimestamp(timestamp)
    ensures var copy := BuildConflictCopyPath(path, timestamp, attempt);
      (forall rules :: !ShouldSyncPath(copy, rules, configDir)) <==>
        KeepsSuffix(Extension(BaseName(path))) || IsReservedSyncPath(NormalizeVaultPath(copy), configDir)
  {
    ConflictCopyIsRecognized(path, timestamp, attempt);
    var copy := BuildConflictCopyPath(path, timestamp, attempt);
    var normalized := NormalizeVaultPath(copy);
    if !KeepsSuffix(Extension(BaseName(path))) && !IsReservedSyncPath(normalized, configDir) {
      var everything := SyncFileRules(true, true, true, true, true, [], [normalized]);
      assert normalized in everything.includedHiddenFolders;
      assert ShouldSyncPath(copy, everything, configDir);
    }
  }

  lemma {:induction false} OneSegment(name: string)
    requires forall k | 0 <= k < |name| :: name[k] != '/'
    ensures Segments(name) == [name]
  {
    if name != "" {
      OneSegment(name[1..]);
      assert [name[0]] + name[1..] == name;
    }
  }

  const STAMP := "20260102-030405"
  const ESCAPED := "a" + MARK + STAMP + "."

  lemma EscapedFacts()
    ensures IsTimestamp(STAMP) && |ESCAPED| > 12 && ESCAPED[0] == 'a' && ESCAPED[|ESCAPED| - 1] == '.'
    ensures forall k | 0 <= k < |ESCAPED| :: ESCAPED[k] != '/'
  {
  }

  /** A portable name whose conflict copy escapes: its extension is one no-break space, and rules that include other files
      sync the copy. */
  lemma BlankExtensionEscapes(rules: SyncFileRules, configDir: Path)
    requires rules.includeOtherFiles && rules.excludedFolders == [] && configDir != ESCAPED
    ensures ShouldSyncPath(BuildConflictCopyPath("a.\U{00A0}", STAMP, 0), rules, configDir)
  {
    EscapedFacts();
    var path, trimmed := "a.\U{00A0}", ESCAPED;
    BlankExtension(path, STAMP, trimmed);
    hide *;
    ConflictCopyIsRecognized(path, STAMP, 0);
    EndsOf(trimmed);
    Escapes(BuildConflictCopyPath(path, STAMP, 0), trimmed, rules, configDir);
  }

  lemma Escapes(copy: Path, trimmed: string, rules: SyncFileRules, configDir: Path)
    requires NormalizeVaultPath(copy) == trimmed && !IsSyncConflictFile(trimmed)
    requires |trimmed| > 12 && trimmed[0] == 'a' && trimmed[|trimmed| - 1] == '.' && NormalizeVaultPath(trimmed) == trimmed
    requires forall k | 0 <= k < |trimmed| :: trimmed[k] != '/'
    requires rules.includeOtherFiles && rules.excludedFolders == [] && configDir != trimmed
    ensures ShouldSyncPath(copy, rules, configDir)
  {
    CopyInNoFolder(trimmed, configDir);
    EndsInNoExtension(trimmed);
    hide NormalizeVaultPath, IsReservedSyncPath, HasHiddenSegment, FileExtension, IsSyncConflictFile;
  }

  lemma BlankExtension(path: Path, timestamp: string, trimmed: string)
    requires path == "a.\U{00A0}" && trimmed == "a" + MARK + timestamp + "."
    ensures BuildConflictCopyPath(path, timestamp, 0) == trimmed + "\U{00A0}"
    ensures !KeepsSuffix(Extension(BaseName(path)))
  {
    LastIndexIsNone(path, '/');
    LastIndexIs(path, '.', 1);
    assert Extension(path) == path[1..] && Stem(path) == "a";
  }

  /** Trimming takes the no-break space away and nothing more. */
  lemma EndsOf(trimmed: string)
    requires trimmed != "" && trimmed[0] == 'a' && trimmed[|trimmed| - 1] == '.'
    ensures NormalizeVaultPath(trimmed + "\U{00A0}") == trimmed && NormalizeVaultPath(trimmed) == trimmed
  {
    var copy := trimmed + "\U{00A0}";
    assert copy[..|copy| - 1] == trimmed;
    assert StripStart(copy, false) == copy && StripEnd(copy, false) == StripEnd(trimmed, false) == trimmed;
  }

  lemma CopyInNoFolder(trimmed: string, configDir: Path)
    requires |trimmed| > 12 && trimmed[0] == 'a' && NormalizeVaultPath(trimmed) == trimmed
    requires forall k | 0 <= k < |trimmed| :: trimmed[k] != '/'
    requires configDir != trimmed
    ensures !IsReservedSyncPath(trimmed, configDir) && !HasHiddenSegment(trimmed)
  {
    OneSegment(trimmed);
    hide Segments, NormalizeVaultPath;
    assert forall s | s in Segments(trimmed) :: s == trimmed;
  }

  lemma EndsInNoExtension(name: string)
    requires name != "" && name[|name| - 1] == '.' && forall k | 0 <= k < |name| :: name[k] != '/'
    ensures FileExtension(name) == ""
  {
    LastIndexIsNone(name, '/');
    LastIndexIs(name, '.', |name| - 1);
  }

  // ---------------------------------------------------------------- managed config paths

  /** The path inside the config folder; the empty string for the folder itself. */
  function ConfigRelativePath(path: Path, configDir: Path): Option<string> {
    var normalized, dir := NormalizeVaultPath(path), NormalizeVaultPath(configDir);
    if dir == "" then None
    else if normalized == dir then Some("")
    else if !(dir + "/" <= normalized) then None
    else Some(normalized[|dir| + 1..])
  }

  ghost predicate OccursAt(s: string, part: string, k: nat) { k + |part| <= |s| && s[k..k + |part|] == part }

  ghost predicate Includes(s: string, part: string) { exists k: nat :: OccursAt(s, part, k) }

  /** `chosen` stands for the rules that pick config files; workspace and plugin denials only shrink it. */
  ghost predicate IsManagedConfigPath(path: Path, configDir: Path, chosen: string -> bool) {
    var inside := ConfigRelativePath(path, configDir);
    inside.Some? && inside.value != "" && !Includes(inside.value, MARK) && chosen(inside.value)
  }

  /** No config rules make a conflict copy a managed path. */
  lemma ConflictCopyIsNotManaged(path: Path, timestamp: string, attempt: nat, configDir: Path, chosen: string -> bool)
    requires IsTimestamp(timestamp)
    ensures !IsManagedConfigPath(BuildConflictCopyPath(path, timestamp, attempt), configDir, chosen)
  {
    var head := CopyShape(path, timestamp, attempt);
    var extension := Extension(BaseName(path));
    var copy := BuildConflictCopyPath(path, timestamp, attempt);
    var front, suffix := NormalizedCopy(head, timestamp, Counter(attempt), extension);
    CounterIsCounter(attempt);
    hide IsTimestamp, IsCounter, IsSuffix, NormalizeVaultPath, BuildConflictCopyPath, Counter, Extension, BaseName, Tail, KeepsSuffix;
    var inside := ConfigRelativePath(copy, configDir);
    if inside.Some? && inside.value != "" {
      MarkStaysInside(front, timestamp, Counter(attempt), suffix, NormalizeVaultPath(configDir));
    }
  }

  lemma SlashLiesInFront(front: string, tail: string, at: nat)
    requires at < |front + tail| && (front + tail)[at] == '/'
    requires forall k | 0 <= k < |tail| :: tail[k] != '/'
    ensures at < |front|
  {
  }

  lemma DropWithinFront(front: string, tail: string, n: nat)
    requires n <= |front| && MARK <= tail
    ensures OccursAt((front + tail)[n..], MARK, |front| - n)
  {
    assert (front + tail)[n..] == front[n..] + tail;
  }

  lemma MarkStaysInside(front: string, timestamp: string, counter: string, suffix: string, dir: Path)
    requires IsTimestamp(timestamp) && IsCounter(counter) && (IsSuffix(suffix) || suffix == ".")
    requires dir + "/" <= front + Tail(timestamp, counter, suffix)
    ensures Includes((front + Tail(timestamp, counter, suffix))[|dir| + 1..], MARK)
  {
    TailHasNoSlash(timestamp, counter, suffix);
    hide IsTimestamp, IsCounter, IsSuffix;
    var tail := Tail(timestamp, counter, suffix);
    assert MARK <= tail;
    assert (front + tail)[|dir|] == '/';
    SlashLiesInFront(front, tail, |dir|);
    DropWithinFront(front, tail, |dir| + 1);
  }
}
