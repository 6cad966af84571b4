/** The bundle manifest and the shape it must have before anything in it is trusted. */
module Bundle {
  const BRIDGE_EXE_NAME := "rdpilot-bridge.exe"

  const MANIFEST_NAME := "manifest.json"

  const CUA_DRIVER_EXE_NAME := "cua-driver.exe"

  datatype Manifest = Manifest(
    bundleId: string, cuaVersion: string, archiveName: string, archiveHash: string, bridgeHash: string,
    files: map<string, string>)

  predicate Alphanumeric(c: char) {
    'a' <= c <= 'z' || 'A' <= c <= 'Z' || '0' <= c <= '9'
  }

  predicate BundleIdOk(id: string) {
    && 1 <= |id| <= 128 && id[0] != '.'
    && forall i :: 0 <= i < |id| ==> Alphanumeric(id[i]) || id[i] == '.' || id[i] == '_' || id[i] == '-'
  }

  /** How many bytes a character takes in UTF-8. */
  function Utf8Length(name: string): nat {
    if name == "" then 0
    else
      var code := name[|name| - 1] as int;
      Utf8Length(name[..|name| - 1]) +
      if code < 0x80 then 1 else if code < 0x800 then 2 else if code < 0x10000 then 3 else 4
  }

  predicate Forbidden(c: char) {
    || (c as int) < 32 || 127 <= (c as int) < 160
    || c == '/' || c == '\\' || c == ':' || c == '*' || c == '?' || c == '"' || c == '<' || c == '>' || c == '|'
  }

  /** A flat file name that Windows takes as it is. */
  predicate EntryNameOk(name: string) {
    && name != "" && Utf8Length(name) <= 255
    && name[|name| - 1] != '.' && name[|name| - 1] != ' ' && name[0] != ' '
    && forall i :: 0 <= i < |name| ==> !Forbidden(name[i])
  }

  predicate HashOk(hash: string) {
    |hash| == 64 && forall i :: 0 <= i < 64 ==> '0' <= hash[i] <= '9' || 'a' <= hash[i] <= 'f'
  }

  function Lower(c: char): char {
    if 'A' <= c <= 'Z' then (c as int + 32) as char else c
  }

  predicate SameIgnoringCase(a: string, b: string) {
    |a| == |b| && forall i :: 0 <= i < |a| ==> Lower(a[i]) == Lower(b[i])
  }

  predicate FileOk(name: string, hash: string) {
    && EntryNameOk(name) && HashOk(hash)
    && !SameIgnoringCase(name, BRIDGE_EXE_NAME) && !SameIgnoringCase(name, MANIFEST_NAME)
  }

  predicate Valid(m: Manifest) {
    && BundleIdOk(m.bundleId) && EntryNameOk(m.archiveName) && HashOk(m.archiveHash) && HashOk(m.bridgeHash)
    && CUA_DRIVER_EXE_NAME in m.files
    && forall name :: name in m.files ==> FileOk(name, m.files[name])
  }

  lemma ForbiddenExactly(c: char)
    ensures Forbidden(c) <==> c in "/\\:*?\"<>|" || c as int < 32 || 127 <= c as int < 160
  {
  }

  /**
   A file name is accepted exactly if it has 1 to 255 bytes, no separator, wildcard, quote, bracket, bar or
   control character, no space or dot at its end and no space at its start.
   */
  lemma NamesAreAcceptedExactly(name: string)
    ensures EntryNameOk(name) <==>
            && 1 <= |name| && Utf8Length(name) <= 255
            && (forall i :: 0 <= i < |name| ==>
                  name[i] !in "/\\:*?\"<>|" && !(name[i] as int < 32 || 127 <= name[i] as int < 160))
            && name[|name| - 1] !in ". " && name[0] != ' '
  {
    forall i | 0 <= i < |name|
      ensures !Forbidden(name[i]) <==>
              name[i] !in "/\\:*?\"<>|" && !(name[i] as int < 32 || 127 <= name[i] as int < 160)
    {
      ForbiddenExactly(name[i]);
    }
  }

  /** An accepted name is one component of a path: joined to a directory it stays inside. */
  lemma NamesStayInside(name: string)
    requires EntryNameOk(name) || BundleIdOk(name)
    ensures name != "" && name != "." && name != ".."
    ensures '/' !in name && '\\' !in name && ':' !in name
  {
  }

  lemma HexDigit(c: char)
    ensures c in "0123456789abcdef" <==> '0' <= c <= '9' || 'a' <= c <= 'f'
  {
    var digits := "0123456789abcdef";
    if '0' <= c <= '9' {
      assert digits[c as int - 48] == c;
    } else if 'a' <= c <= 'f' {
      assert digits[c as int - 87] == c;
    }
  }

  /** A content hash is 64 lower-case hexadecimal digits. */
  lemma HashesAreHexadecimal(hash: string)
    ensures HashOk(hash) <==> |hash| == 64 && forall i :: 0 <= i < 64 ==> hash[i] in "0123456789abcdef"
  {
    forall i | 0 <= i < |hash|
      ensures hash[i] in "0123456789abcdef" <==> '0' <= hash[i] <= '9' || 'a' <= hash[i] <= 'f'
    {
      HexDigit(hash[i]);
    }
  }

  /** No file may take the name of the bridge or of the manifest, in any case. */
  lemma ReservedNamesAreRefused(hash: string)
    ensures !FileOk("rdpilot-bridge.exe", hash) && !FileOk("RDPILOT-BRIDGE.EXE", hash)
    ensures !FileOk("manifest.json", hash) && !FileOk("Manifest.JSON", hash)
  {
    assert SameIgnoringCase("RDPILOT-BRIDGE.EXE", BRIDGE_EXE_NAME);
    assert SameIgnoringCase("Manifest.JSON", MANIFEST_NAME);
  }

  /** `n` times the letter a. */
  function Letters(n: nat): string {
    seq(n, _ => 'a')
  }

  lemma {:induction false} LettersAreBytes(n: nat)
    ensures Utf8Length(Letters(n)) == n
  {
    if n > 0 {
      assert Letters(n)[..n - 1] == Letters(n - 1);
      LettersAreBytes(n - 1);
    }
  }

  lemma {:induction false} BytesCoverCharacters(name: string)
    ensures |name| <= Utf8Length(name) <= 4 * |name|
  {
    if name != "" {
      BytesCoverCharacters(name[..|name| - 1]);
    }
  }

  /** The limits are 255 bytes for a file and 128 characters for a bundle: no more, and as many. */
  lemma NamesFitTheLimit(name: string)
    ensures EntryNameOk(name) ==> |name| <= 255
    ensures EntryNameOk(Letters(255)) && !EntryNameOk(Letters(256))
    ensures (BundleIdOk(name) ==> |name| <= 128) && BundleIdOk(Letters(128))
  {
    BytesCoverCharacters(name);
    LettersAreBytes(255);
    LettersAreBytes(256);
  }
}
