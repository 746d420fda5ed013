/**
 * The two job handlers that settle a row: build validation and media
 * transcoding. Storage, hashing and probing are parameters: what they answer,
 * including that they fail, is free.
 */
module Handlers {
  import opened Common
  import opened JsText

  type Byte = b: int | 0 <= b < 256
  type Bytes = seq<Byte>

  function Flatten(chunks: seq<Bytes>): Bytes {
    if chunks == [] then [] else Flatten(chunks[..|chunks| - 1]) + chunks[|chunks| - 1]
  }

  /* ------------------------------------- builds ------------------------------------- */

  const HEAD_BYTES := 8

  function Head(s: Bytes): Bytes { if |s| <= HEAD_BYTES then s else s[..HEAD_BYTES] }

  datatype BuildStatus = AwaitingUpload | Uploading | Processing | Validated | Failed
  datatype StepKey = Checksum | MalwareScan | Metadata
  datatype StepStatus = StepProcessing | StepReady | StepFailed
  /** The failure messages of the handler; the text of a read error is not kept. */
  datatype Reason = ObjectMissing | ObjectUnreadable | DigestDiffers | FormatUnknown | ScanUnavailable | OtherReason
  /** An absent declared checksum and an empty one are the same to the code. */
  datatype Build = Build(fileName: Text, checksum: Text, status: BuildStatus, failureReason: Option<Reason>)
  /** What storage has under the build's key. */
  datatype Object = Missing | Unreadable | Readable(chunks: seq<Bytes>)

  /** The file formats that can be recognised by their leading bytes. */
  function Signature(ext: Text): (r: Option<Bytes>)
    ensures r.Some? ==> 0 < |r.value| <= HEAD_BYTES
  {
    if ext == T("apk") || ext == T("ipa") || ext == T("zip") then Some([0x50, 0x4b, 0x03, 0x04])
    else if ext == T("exe") then Some([0x4d, 0x5a])
    else if ext == T("msi") then Some([0xd0, 0xcf, 0x11, 0xe0, 0xa1, 0xb1, 0x1a, 0xe1])
    else if ext == T("deb") then Some([0x21, 0x3c, 0x61, 0x72, 0x63, 0x68, 0x3e])
    else if ext == T("appimage") then Some([0x7f, 0x45, 0x4c, 0x46])
    else if ext == T("pkg") then Some([0x78, 0x61, 0x72, 0x21])
    else if ext == T("gz") || ext == T("tgz") then Some([0x1f, 0x8b])
    else None
  }

  predicate IsAlnum(u: Unit) { 48 <= u <= 57 || 65 <= u <= 90 || 97 <= u <= 122 }
  predicate AllAlnum(s: Text) { forall i :: 0 <= i < |s| ==> IsAlnum(s[i]) }

  /** `name` ends, but for white space, in a dot and `suffix`, which is alphanumeric. */
  ghost predicate EndsIn(name: Text, suffix: Text) {
    suffix != [] && AllAlnum(suffix)
    && |Trim(name)| > |suffix| && Trim(name)[|Trim(name)| - |suffix| - 1..] == [46] + suffix
  }

  function ExtensionOf(name: Text): Option<Text> {
    var t := Trim(name);
    var dot := LastIndexOf(t, 46);
    if dot.None? then None
    else
      var suffix := t[dot.value + 1..];
      if suffix != [] && AllAlnum(suffix) then Some(Lower(suffix)) else None
  }

  lemma OneSuffix(t: Text, x: Text, dot: nat)
    requires |t| > |x| && t[|t| - |x| - 1..] == [46] + x && AllAlnum(x)
    requires dot < |t| && t[dot] == 46 && 46 !in t[dot + 1..]
    ensures x == t[dot + 1..]
  {
    var at := |t| - |x| - 1;
    assert t[at] == t[at..][0] == 46;
    forall k | dot < k < |t| ensures t[k] != 46 { assert t[k] == t[dot + 1..][k - dot - 1]; }
    forall k | at < k < |t| ensures t[k] != 46 { assert t[k] == t[at..][k - at] == x[k - at - 1]; }
    assert t[at + 1..] == t[at..][1..];
  }

  /** The extension is the alphanumeric suffix after a dot that ends the trimmed name, if there is one. */
  lemma ExtensionIsTheSuffix(name: Text, suffix: Text)
    ensures EndsIn(name, suffix) ==> ExtensionOf(name) == Some(Lower(suffix))
    ensures ExtensionOf(name).Some? ==> exists x :: EndsIn(name, x)
  {
    hide Trim, Lower;
    var t := Trim(name);
    var dot := LastIndexOf(t, 46);
    if EndsIn(name, suffix) {
      assert t[|t| - |suffix| - 1] == t[|t| - |suffix| - 1..][0] == 46;
      OneSuffix(t, suffix, dot.value);
    }
    if ExtensionOf(name).Some? {
      assert t[dot.value..] == [46] + t[dot.value + 1..];
      assert EndsIn(name, t[dot.value + 1..]);
    }
  }

  /** A file named `.constructor` finds a function, not a byte list, in the signature table, and the handler throws. */
  predicate Poisoned(ext: Option<Text>) { ext == Some(T("constructor")) }

  /** The object can be read and hashes to what was declared, if anything was. */
  predicate DigestAgrees(b: Build, stored: Object, sha256: Bytes -> Text) {
    stored.Readable? && (b.checksum == [] || Lower(b.checksum) == Lower(sha256(Flatten(stored.chunks))))
  }

  /** The object starts with the signature of the format its file name declares. */
  predicate FormatConfirmed(b: Build, stored: Object) {
    && stored.Readable? && ExtensionOf(b.fileName).Some?
    && Signature(ExtensionOf(b.fileName).value).Some?
    && Signature(ExtensionOf(b.fileName).value).value <= Flatten(stored.chunks)
  }

  /** A run throws when it gets as far as the signature of a poisoned name. */
  predicate Throws(b: Build, stored: Object, sha256: Bytes -> Text) {
    DigestAgrees(b, stored, sha256) && Poisoned(ExtensionOf(b.fileName))
  }

  /** When a build may be approved. */
  predicate Approvable(b: Build, stored: Object, sha256: Bytes -> Text, bypass: bool) {
    DigestAgrees(b, stored, sha256) && FormatConfirmed(b, stored) && bypass
  }

  /** The first check that fails, for a build that is not approvable. */
  function Refusal(b: Build, stored: Object, sha256: Bytes -> Text): Reason {
    match stored
    case Missing => ObjectMissing
    case Unreadable => ObjectUnreadable
    case Readable(_) =>
      if !DigestAgrees(b, stored, sha256) then DigestDiffers
      else if !FormatConfirmed(b, stored) then FormatUnknown
      else ScanUnavailable
  }

  /** The step a failure is reported on. */
  function StepOf(r: Reason): StepKey {
    match r
    case FormatUnknown => Metadata
    case ScanUnavailable => MalwareScan
    case _ => Checksum
  }

  /** The build row after a run: the digest is stored once it agrees, and the status unless the run throws. */
  function AfterRun(b: Build, stored: Object, sha256: Bytes -> Text, bypass: bool): Build {
    var read := if DigestAgrees(b, stored, sha256) then b.(checksum := sha256(Flatten(stored.chunks))) else b;
    if Throws(b, stored, sha256) then read
    else if Approvable(b, stored, sha256, bypass) then read.(status := Validated, failureReason := None)
    else read.(status := Failed, failureReason := Some(Refusal(b, stored, sha256)))
  }

  /** The row after `n` runs over the same object. */
  function AfterRuns(b: Build, stored: Object, sha256: Bytes -> Text, bypass: bool, n: nat): Build {
    if n == 0 then b else AfterRun(AfterRuns(b, stored, sha256, bypass, n - 1), stored, sha256, bypass)
  }

  /** A build whose run throws once throws on every run, and its status never changes. */
  lemma {:induction false} ThrowsOnEveryRun(b: Build, stored: Object, sha256: Bytes -> Text, bypass: bool, n: nat)
    requires Throws(b, stored, sha256)
    ensures var b' := AfterRuns(b, stored, sha256, bypass, n);
            Throws(b', stored, sha256) && b'.status == b.status && b'.fileName == b.fileName
    decreases n
  {
    hide ExtensionOf, Lower, Flatten, Poisoned;
    if n > 0 { ThrowsOnEveryRun(b, stored, sha256, bypass, n - 1); }
  }

  lemma ConstructorIsPoisoned()
    ensures Poisoned(ExtensionOf(T("game.constructor")))
  {
    hide ExtensionOf;
    var name, suffix := T("game.constructor"), T("constructor");
    assert TrimStart(name) == name && TrimEnd(name) == name;
    assert name[|name| - |suffix| - 1..] == [46] + suffix;
    ExtensionIsTheSuffix(name, suffix);
    assert Lower(suffix) == suffix;
  }

  /** For instance a readable one that declared no checksum and is called `game.constructor`. */
  lemma ConstructorThrows(b: Build, chunks: seq<Bytes>, sha256: Bytes -> Text)
    requires b.fileName == T("game.constructor") && b.checksum == []
    ensures Throws(b, Readable(chunks), sha256)
  {
    hide T, ExtensionOf, Poisoned;
    ConstructorIsPoisoned();
  }

  /* ------------------------------- formats, one by one ------------------------------- */

  /** The chunks of a stream are its bytes: nothing is dropped, added or reordered. */
  lemma {:induction false} FlattenParts(a: seq<Bytes>, b: seq<Bytes>)
    ensures Flatten(a + b) == Flatten(a) + Flatten(b)
    decreases |b|
  {
    if b == [] {
      assert a + b == a;
    } else {
      assert (a + b)[..|a + b| - 1] == a + b[..|b| - 1];
      FlattenParts(a, b[..|b| - 1]);
    }
  }

  lemma FlattenOne(chunk: Bytes)
    ensures Flatten([chunk]) == chunk && Flatten([]) == []
  {
    assert [chunk][..0] == [];
  }

  /** The same letters, but for ASCII case, as the lower-case word. */
  ghost predicate Spells(s: Text, word: string) {
    |s| == |word| && forall i :: 0 <= i < |s| ==> s[i] == word[i] as int || (65 <= s[i] <= 90 && s[i] + 32 == word[i] as int)
  }

  /** Made of lower-case letters and digits. */
  ghost predicate Plain(word: string) {
    word != [] && forall i :: 0 <= i < |word| ==> 'a' <= word[i] <= 'z' || '0' <= word[i] <= '9'
  }

  lemma SpelledIs(s: Text, word: string)
    requires Plain(word)
    ensures Spells(s, word) <==> Lower(s) == T(word)
  {
    LiteralIs(word);
    if Lower(s) == T(word) {
      forall i | 0 <= i < |s| ensures s[i] == word[i] as int || (65 <= s[i] <= 90 && s[i] + 32 == word[i] as int) {
        assert Lower(s)[i] == T(word)[i];
      }
    }
    if Spells(s, word) {
      forall i | 0 <= i < |s| ensures Lower(s)[i] == T(word)[i] {}
    }
  }

  /** The formats and the bytes each of them starts with. */
  ghost predicate KnownFormat(word: string, magic: Bytes) {
    || ((word == "apk" || word == "ipa" || word == "zip") && magic == [0x50, 0x4b, 0x03, 0x04])
    || (word == "exe" && magic == [0x4d, 0x5a])
    || (word == "msi" && magic == [0xd0, 0xcf, 0x11, 0xe0, 0xa1, 0xb1, 0x1a, 0xe1])
    || (word == "deb" && magic == [0x21, 0x3c, 0x61, 0x72, 0x63, 0x68, 0x3e])
    || (word == "appimage" && magic == [0x7f, 0x45, 0x4c, 0x46])
    || (word == "pkg" && magic == [0x78, 0x61, 0x72, 0x21])
    || ((word == "gz" || word == "tgz") && magic == [0x1f, 0x8b])
  }

  /** Readable, and the declared checksum, if any, is the digest but for letter case. */
  ghost predicate Intact(b: Build, stored: Object, sha256: Bytes -> Text) {
    stored.Readable?
    && (b.checksum == [] || Lower(b.checksum) == Lower(sha256(Flatten(stored.chunks))))
  }

  lemma SameWord(a: string, b: string)
    requires Plain(a) && Plain(b)
    ensures T(a) == T(b) <==> a == b
  {
    LiteralIs(a);
    LiteralIs(b);
    if T(a) == T(b) {
      forall i | 0 <= i < |a| ensures a[i] == b[i] { assert T(a)[i] == T(b)[i]; }
    }
  }

  ghost predicate IsFormat(word: string) {
    word == "apk" || word == "ipa" || word == "zip" || word == "exe" || word == "msi" || word == "deb"
    || word == "appimage" || word == "pkg" || word == "gz" || word == "tgz"
  }

  lemma FormatsArePlain()
    ensures Plain("apk") && Plain("ipa") && Plain("zip") && Plain("exe") && Plain("msi") && Plain("deb")
    ensures Plain("appimage") && Plain("pkg") && Plain("gz") && Plain("tgz") && Plain("constructor")
  {}

  lemma WordsApart(word: string)
    requires Plain(word)
    ensures T("apk") == T(word) <==> word == "apk"
    ensures T("ipa") == T(word) <==> word == "ipa"
    ensures T("zip") == T(word) <==> word == "zip"
    ensures T("exe") == T(word) <==> word == "exe"
    ensures T("msi") == T(word) <==> word == "msi"
    ensures T("deb") == T(word) <==> word == "deb"
    ensures T("appimage") == T(word) <==> word == "appimage"
    ensures T("pkg") == T(word) <==> word == "pkg"
    ensures T("gz") == T(word) <==> word == "gz"
    ensures T("tgz") == T(word) <==> word == "tgz"
    ensures T("constructor") == T(word) <==> word == "constructor"
  {
    FormatsArePlain();
    hide T, Plain;
    SameWord("apk", word);
    SameWord("ipa", word);
    SameWord("zip", word);
    SameWord("exe", word);
    SameWord("msi", word);
    SameWord("deb", word);
    SameWord("appimage", word);
    SameWord("pkg", word);
    SameWord("gz", word);
    SameWord("tgz", word);
    SameWord("constructor", word);
  }

  lemma SignatureOfKnown(word: string, magic: Bytes)
    requires KnownFormat(word, magic)
    ensures Plain(word) && Signature(T(word)) == Some(magic) && !Poisoned(Some(T(word)))
  {
    hide T, Plain;
    FormatsArePlain();
    WordsApart(word);
  }

  lemma NoOtherSignature(ext: Text)
    requires forall w :: IsFormat(w) ==> ext != T(w)
    ensures Signature(ext).None?
  {
    assert ext != T("apk") && ext != T("ipa") && ext != T("zip") && ext != T("exe") && ext != T("msi");
    assert ext != T("deb") && ext != T("appimage") && ext != T("pkg") && ext != T("gz") && ext != T("tgz");
    hide T;
  }

  /** The trimmed name ends in a dot and the word, in whatever case. */
  ghost predicate Named(name: Text, word: string) {
    var t := Trim(name);
    |t| > |word| && t[|t| - |word| - 1] == 46 && Spells(t[|t| - |word|..], word)
  }

  lemma NamedIs(name: Text, word: string)
    requires Plain(word)
    ensures Named(name, word) <==> ExtensionOf(name) == Some(T(word))
  {
    hide Trim, Lower, T;
    var t := Trim(name);
    if Named(name, word) {
      var suffix := t[|t| - |word|..];
      SpelledIs(suffix, word);
      assert AllAlnum(suffix) by {
        forall i | 0 <= i < |suffix| ensures IsAlnum(suffix[i]) { assert 'a' <= word[i] <= 'z' || '0' <= word[i] <= '9'; }
      }
      assert t[|t| - |suffix| - 1..] == [46] + suffix;
      ExtensionIsTheSuffix(name, suffix);
    }
    if ExtensionOf(name) == Some(T(word)) {
      var dot := LastIndexOf(t, 46).value;
      SpelledIs(t[dot + 1..], word);
      LiteralIs(word);
    }
  }

  /**
   * A file named as one of the ten formats, intact: refused as unknown exactly when it
   * does not start with that format's bytes; otherwise only the missing scanner stands
   * in its way.
   */
  lemma FormatDecides(b: Build, chunks: seq<Bytes>, sha256: Bytes -> Text, bypass: bool, word: string, magic: Bytes)
    requires KnownFormat(word, magic) && Named(b.fileName, word) && Intact(b, Readable(chunks), sha256)
    ensures var b' := AfterRun(b, Readable(chunks), sha256, bypass);
            && !Throws(b, Readable(chunks), sha256)
            && (b'.status == Failed && b'.failureReason == Some(FormatUnknown) <==> !(magic <= Flatten(chunks)))
            && (b'.status == Failed && b'.failureReason == Some(ScanUnavailable) <==> magic <= Flatten(chunks) && !bypass)
            && (b'.status == Validated && b'.failureReason == None <==> magic <= Flatten(chunks) && bypass)
  {
    SignatureOfKnown(word, magic);
    NamedIs(b.fileName, word);
    hide Flatten, Signature, ExtensionOf, Named, KnownFormat, T, Poisoned, Lower;
  }

  /** Named as none of them, nor `*.constructor`: refused, whatever its bytes are. */
  lemma OtherFormatsAreRefused(b: Build, chunks: seq<Bytes>, sha256: Bytes -> Text, bypass: bool)
    requires forall w :: IsFormat(w) || w == "constructor" ==> !Named(b.fileName, w)
    requires Intact(b, Readable(chunks), sha256)
    ensures var b' := AfterRun(b, Readable(chunks), sha256, bypass);
            !Throws(b, Readable(chunks), sha256) && b'.status == Failed && b'.failureReason == Some(FormatUnknown)
  {
    hide Flatten, Signature, ExtensionOf, Named, T, Lower, Plain;
    FormatsArePlain();
    forall w | IsFormat(w) || w == "constructor" ensures ExtensionOf(b.fileName) != Some(T(w)) {
      NamedIs(b.fileName, w);
    }
    hide IsFormat;
    if ExtensionOf(b.fileName).Some? { NoOtherSignature(ExtensionOf(b.fileName).value); }
    assert !Poisoned(ExtensionOf(b.fileName));
  }

  /** The checks before that, in their order; the digest is stored exactly when they pass. */
  lemma RefusedInOrder(b: Build, stored: Object, sha256: Bytes -> Text, bypass: bool)
    ensures var b' := AfterRun(b, stored, sha256, bypass);
            && b'.fileName == b.fileName
            && (stored.Missing? ==> b' == b.(status := Failed, failureReason := Some(ObjectMissing)))
            && (stored.Unreadable? ==> b' == b.(status := Failed, failureReason := Some(ObjectUnreadable)))
            && (stored.Readable? && !Intact(b, stored, sha256) ==>
                  b' == b.(status := Failed, failureReason := Some(DigestDiffers)))
            && (Intact(b, stored, sha256) ==> b'.checksum == sha256(Flatten(stored.chunks)))
            && (Throws(b, stored, sha256) <==> Intact(b, stored, sha256) && Named(b.fileName, "constructor"))
            && (Throws(b, stored, sha256) ==> b'.status == b.status && b'.failureReason == b.failureReason)
  {
    NamedIs(b.fileName, "constructor");
    hide Flatten, FormatConfirmed, ExtensionOf, Named, Lower;
  }

  /** The update of a validation step, which finds no row when the step was never planned. */
  function WithStep(steps: map<(Id, StepKey), StepStatus>, id: Id, key: StepKey, status: StepStatus)
    : (r: map<(Id, StepKey), StepStatus>)
    ensures StepIs(r, id, key, status) && r.Keys == steps.Keys
    ensures forall k: StepKey, s :: k != key && StepIs(steps, id, k, s) ==> StepIs(r, id, k, s)
    ensures forall k :: k in r && k.0 != id ==> r[k] == steps[k]
  {
    if (id, key) in steps then steps[(id, key) := status] else steps
  }

  predicate StepIs(steps: map<(Id, StepKey), StepStatus>, id: Id, key: StepKey, status: StepStatus) {
    (id, key) in steps ==> steps[(id, key)] == status
  }

  lemma HeadDecidesPrefix(signature: Bytes, all: Bytes)
    requires |signature| <= HEAD_BYTES
    ensures Head(all)[..if |Head(all)| < |signature| then |Head(all)| else |signature|] == signature <==> signature <= all
  {
    if signature <= all { assert Head(all)[..|signature|] == signature; }
  }

  class BuildHandler {
    var builds: map<Id, Build>
    var steps: map<(Id, StepKey), StepStatus>

    constructor (builds: map<Id, Build>, steps: map<(Id, StepKey), StepStatus>)
      ensures this.builds == builds && this.steps == steps
    {
      this.builds, this.steps := builds, steps;
    }

    /** Reads the object once: everything goes to the hash, the first bytes are kept. */
    static method HashObject(chunks: seq<Bytes>, sha256: Bytes -> Text) returns (sha: Text, headBytes: Bytes)
      ensures sha == sha256(Flatten(chunks)) && headBytes == Head(Flatten(chunks))
      ensures headBytes <= Flatten(chunks) && |headBytes| == if |Flatten(chunks)| < 8 then |Flatten(chunks)| else 8
    {
      var hashed: Bytes, head: Bytes, headLen := [], [], 0;
      for i := 0 to |chunks|
        invariant hashed == Flatten(chunks[..i]) && headLen >= 0
        invariant headLen < HEAD_BYTES ==> headLen == |hashed| && head == hashed
        invariant headLen >= HEAD_BYTES ==> |hashed| >= HEAD_BYTES && head == hashed[..HEAD_BYTES]
      {
        var buf := chunks[i];
        assert chunks[..i + 1][..i] == chunks[..i];
        hashed := hashed + buf;
        if headLen < HEAD_BYTES {
          head := head + if |buf| <= HEAD_BYTES - headLen then buf else buf[..HEAD_BYTES - headLen];
          headLen := headLen + |buf|;
        }
      }
      assert chunks[..|chunks|] == chunks;
      sha, headBytes := sha256(hashed), head;
    }

    method SetStep(id: Id, key: StepKey, status: StepStatus)
      modifies this`steps
      ensures steps == WithStep(old(steps), id, key, status)
    {
      if (id, key) in steps { steps := steps[(id, key) := status]; }
    }

    method Fail(id: Id, reason: Reason)
      requires id in builds
      modifies this
      ensures steps == WithStep(old(steps), id, StepOf(reason), StepFailed)
      ensures builds == old(builds)[id := old(builds)[id].(status := Failed, failureReason := Some(reason))]
    {
      SetStep(id, StepOf(reason), StepFailed);
      builds := builds[id := builds[id].(status := Failed, failureReason := Some(reason))];
    }

    /**
     * A run on an unknown build throws. Any other leaves that one row as AfterRun
     * says and throws exactly when Throws does; a validated build has every step
     * ready, and a refused one the step of its reason failed.
     */
    method ProcessBuildValidate(id: Id, stored: Object, sha256: Bytes -> Text, bypass: bool) returns (threw: bool)
      modifies this
      ensures steps.Keys == old(steps).Keys
      ensures id !in old(builds) ==> threw && builds == old(builds)
      ensures id in old(builds) ==>
                threw == Throws(old(builds)[id], stored, sha256)
                && builds == old(builds)[id := AfterRun(old(builds)[id], stored, sha256, bypass)]
      ensures id in old(builds) && !threw && Approvable(old(builds)[id], stored, sha256, bypass) ==>
                StepIs(steps, id, Checksum, StepReady) && StepIs(steps, id, Metadata, StepReady)
                && StepIs(steps, id, MalwareScan, StepReady)
      ensures id in old(builds) && !threw && !Approvable(old(builds)[id], stored, sha256, bypass) ==>
                match Refusal(old(builds)[id], stored, sha256)
                case ScanUnavailable =>
                  StepIs(steps, id, Checksum, StepReady) && StepIs(steps, id, Metadata, StepReady)
                  && StepIs(steps, id, MalwareScan, StepFailed)
                case FormatUnknown => StepIs(steps, id, Checksum, StepReady) && StepIs(steps, id, Metadata, StepFailed)
                case _ => StepIs(steps, id, Checksum, StepFailed)
      ensures forall k :: k in steps && k.0 != id ==> steps[k] == old(steps)[k]
    {
      hide Poisoned, ExtensionOf, Signature, Lower, Flatten, Head, WithStep, StepIs;
      if id !in builds { return true; }
      var build := builds[id];
      if stored.Missing? {
        Fail(id, ObjectMissing);
        return false;
      }
      if stored.Unreadable? {
        Fail(id, ObjectUnreadable);
        return false;
      }
      var sha, headBytes := HashObject(stored.chunks, sha256);
      if build.checksum != [] && Lower(build.checksum) != Lower(sha) {
        Fail(id, DigestDiffers);
        return false;
      }
      SetStep(id, Checksum, StepReady);
      builds := builds[id := builds[id].(checksum := sha)];

      var ext := ExtensionOf(build.fileName);
      if Poisoned(ext) { return true; }
      var signature := if ext.Some? then Signature(ext.value) else None;
      if signature.Some? { HeadDecidesPrefix(signature.value, Flatten(stored.chunks)); }
      if signature.None?
         || headBytes[..if |headBytes| < |signature.value| then |headBytes| else |signature.value|] != signature.value
      {
        Fail(id, FormatUnknown);
        return false;
      }
      SetStep(id, Metadata, StepReady);
      if bypass {
        SetStep(id, MalwareScan, StepReady);
        builds := builds[id := builds[id].(status := Validated, failureReason := None)];
        return false;
      }
      Fail(id, ScanUnavailable);
      return false;
    }
  }

  /* ----------------------------------- recordings ----------------------------------- */

  const MAX_RECORDING_DURATION_MS := 4 * 60 * 60 * 1000

  datatype RecordingStatus = InProgress | Ready | Refused | Unavailable
  datatype Recording = Recording(storageKey: Text, contentType: Option<Text>, sizeBytes: int, durationMs: Option<int>,
                                 status: RecordingStatus, thumbnailKey: Option<Text>)
  datatype ObjectMeta = ObjectMeta(contentType: Option<Text>, sizeBytes: int)
  datatype Probe = Probe(durationMs: Option<int>, hasVideo: bool, videoCodec: Option<Text>)

  function VideoCodecs(): set<Text> { {T("vp8"), T("vp9"), T("av1"), T("h264"), T("hevc")} }

  /** An actual video, in a codec the pipeline knows, of at most four hours. */
  predicate Playable(probe: Option<Probe>) {
    && probe.Some? && probe.value.hasVideo
    && probe.value.videoCodec.Some? && Lower(probe.value.videoCodec.value) in VideoCodecs()
    && (probe.value.durationMs.Some? ==> probe.value.durationMs.value <= MAX_RECORDING_DURATION_MS)
  }

  /** The codec's name is one of the five, in whatever case. */
  ghost predicate KnownCodec(codec: Text) {
    Spells(codec, "vp8") || Spells(codec, "vp9") || Spells(codec, "av1") || Spells(codec, "h264") || Spells(codec, "hevc")
  }

  /** Playable: a video in one of those codecs, of unknown length or at most four hours. */
  lemma PlayableExactly(probe: Option<Probe>)
    ensures Playable(probe) <==>
            match probe
            case None => false
            case Some(Probe(durationMs, hasVideo, videoCodec)) =>
              hasVideo && videoCodec.Some? && KnownCodec(videoCodec.value)
              && (durationMs == None || durationMs.value <= 14400000)
  {
    if probe.Some? && probe.value.videoCodec.Some? {
      var codec := probe.value.videoCodec.value;
      SpelledIs(codec, "vp8");
      SpelledIs(codec, "vp9");
      SpelledIs(codec, "av1");
      SpelledIs(codec, "h264");
      SpelledIs(codec, "hevc");
      hide T, Lower, Spells;
    }
  }

  function OrElse<A>(a: Option<A>, b: Option<A>): Option<A> { if a.Some? then a else b }

  class MediaHandler {
    var recordings: map<Id, Recording>

    constructor (recordings: map<Id, Recording>)
      ensures this.recordings == recordings
    {
      this.recordings := recordings;
    }

    method MarkFailed(id: Id)
      requires id in recordings
      modifies this
      ensures recordings == old(recordings)[id := old(recordings)[id].(status := Refused)]
    {
      recordings := recordings[id := recordings[id].(status := Refused)];
    }

    /**
     * `meta` is None when the object is missing, `downloaded` false when fetching
     * it throws, `probe` None when it is not media, `thumbnailed` false when any
     * part of making the thumbnail throws. A run that does not throw settles the
     * recording, as ready exactly when it is playable; the thumbnail never matters.
     */
    method ProcessMediaTranscode(id: Id, meta: Option<ObjectMeta>, downloaded: bool, probe: Option<Probe>,
                                 thumbnailed: bool) returns (threw: bool)
      modifies this
      ensures threw <==> id !in old(recordings) || (meta.Some? && !downloaded)
      ensures threw ==> recordings == old(recordings)
      ensures !threw ==> recordings.Keys == old(recordings).Keys
      ensures forall j :: j in recordings && j != id ==> recordings[j] == old(recordings)[j]
      ensures !threw ==> recordings[id].status == if meta.Some? && Playable(probe) then Ready else Refused
      ensures !threw && recordings[id].status == Refused ==>
                recordings[id] == old(recordings)[id].(status := Refused)
      ensures !threw && recordings[id].status == Ready ==>
                var (before, found) := (old(recordings)[id], probe.value);
                recordings[id] == Recording(
                  before.storageKey,
                  if meta.value.contentType.Some? then meta.value.contentType else before.contentType,
                  meta.value.sizeBytes,
                  if found.durationMs.Some? then found.durationMs else before.durationMs,
                  Ready,
                  if thumbnailed then Some(before.storageKey + T(".thumb.jpg")) else None)
    {
      if id !in recordings { return true; }
      var recording := recordings[id];
      if meta.None? {
        MarkFailed(id);
        return false;
      }
      if !downloaded { return true; }
      if probe.None? {
        MarkFailed(id);
        return false;
      }
      var found := probe.value;
      var tooLong := found.durationMs.Some? && found.durationMs.value > MAX_RECORDING_DURATION_MS;
      if !found.hasVideo || found.videoCodec.None? || Lower(found.videoCodec.value) !in VideoCodecs() || tooLong {
        MarkFailed(id);
        return false;
      }
      var thumbKey := None;
      if thumbnailed { thumbKey := Some(recording.storageKey + T(".thumb.jpg")); }
      recordings := recordings[id := recording.(
        status := Ready,
        contentType := OrElse(meta.value.contentType, recording.contentType),
        sizeBytes := meta.value.sizeBytes,
        durationMs := OrElse(found.durationMs, recording.durationMs),
        thumbnailKey := thumbKey)];
      return false;
    }
  }
}
