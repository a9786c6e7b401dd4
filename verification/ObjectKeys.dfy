/** Object keys of uploaded files: printed by `requestUploadUrl`, read back by `confirmUpload`. */
module ObjectKeys {
  import opened Domain
  import opened Text

  /** Letters, digits, dots, underscores and dashes. */
  predicate Plain(c: char) {
    'a' <= c <= 'z' || 'A' <= c <= 'Z' || '0' <= c <= '9' || c == '.' || c == '_' || c == '-'
  }

  /** Every character that is not plain becomes an underscore. */
  function Sanitise(name: string): (r: string)
    ensures |r| == |name|
  {
    seq(|name|, i requires 0 <= i < |name| => if Plain(name[i]) then name[i] else '_')
  }

  function Prefix(tenant: string): string {
    "tenants/" + tenant + "/"
  }

  function ObjectKey(tenant: string, entityType: string, entityId: string, millis: nat, filename: string): string {
    Prefix(tenant) + entityType + "s/" + entityId + "/" + Decimal(millis) + "-" + Sanitise(filename)
  }

  /** One s at the end is dropped. */
  function DropFinalS(s: string): string {
    if s != [] && s[|s| - 1] == 's' then s[..|s| - 1] else s
  }

  function LeadingDigits(s: string): (n: nat)
    ensures n <= |s|
    ensures AllDigits(s[..n]) && (n < |s| ==> !IsDigit(s[n]))
  {
    if s == [] || !IsDigit(s[0]) then 0
    else
      var n := LeadingDigits(s[1..]);
      assert forall i | 0 < i < n + 1 :: s[i] == s[1..][i - 1];
      n + 1
  }

  /** Digits at the start, when a dash follows them, are dropped with the dash. */
  function StripTimestamp(s: string): string {
    var n := LeadingDigits(s);
    if 0 < n < |s| && s[n] == '-' then s[n + 1..] else s
  }

  datatype Confirmation =
    | Forbidden
    | BadFormat
    | Confirmed(entityType: string, entityId: string, originalFilename: string)

  /** What `confirmUpload` reads from a token. */
  function Confirm(tenant: string, token: string): Confirmation {
    if !(Prefix(tenant) <= token) then Forbidden
    else
      var parts := Split(token, '/');
      if |parts| < 5 then BadFormat
      else Confirmed(DropFinalS(parts[2]), parts[3], StripTimestamp(Join(parts[4..], "/")))
  }

  // ---------------------------------------------------------------- round trip

  lemma SanitisedIsPlain(name: string)
    ensures forall c | c in Sanitise(name) :: Plain(c)
    ensures Sanitise(name) == name <==> forall c | c in name :: Plain(c)
  {
    if Sanitise(name) == name {
      assert forall i | 0 <= i < |name| :: Plain(name[i]);
    }
    if forall c | c in name :: Plain(c) {
      assert forall i | 0 <= i < |name| :: name[i] in name;
    }
  }

  /** Only the timestamp is stripped, even when the file name itself starts with digits and a dash. */
  lemma StripsOnlyTimestamp(digits: string, name: string)
    requires digits != [] && AllDigits(digits)
    ensures StripTimestamp(digits + "-" + name) == name
  {
    var s := digits + "-" + name;
    var n := LeadingDigits(s);
    assert s[|digits|] == '-';
    assert forall i | 0 <= i < |digits| :: s[i] == digits[i];
    assert forall i | 0 <= i < n :: s[..n][i] == s[i];
    assert n == |digits|;
    assert s[n + 1..] == name;
  }

  lemma DropsAddedS(s: string)
    ensures DropFinalS(s + "s") == s
  {
    assert (s + "s")[..|s|] == s;
  }

  /** The parts of a generated key. */
  lemma SplitKey(tenant: string, entityType: string, entityId: string, millis: nat, filename: string)
    requires '/' !in tenant && '/' !in entityType && '/' !in entityId
    ensures Split(ObjectKey(tenant, entityType, entityId, millis, filename), '/') ==
            ["tenants", tenant, entityType + "s", entityId, Decimal(millis) + "-" + Sanitise(filename)]
  {
    hide Split, Sanitise, Decimal;
    var last := Decimal(millis) + "-" + Sanitise(filename);
    FilePartIsPlain(millis, filename);
    SplitFour("tenants", tenant, entityType + "s", entityId, last);
    assert ObjectKey(tenant, entityType, entityId, millis, filename) ==
           "tenants" + ['/'] + (tenant + ['/'] + ((entityType + "s") + ['/'] + (entityId + ['/'] + last)));
  }

  lemma FilePartIsPlain(millis: nat, filename: string)
    ensures '/' !in Decimal(millis) + "-" + Sanitise(filename)
  {
    SanitisedIsPlain(filename);
    assert forall c | c in Decimal(millis) :: IsDigit(c);
  }

  lemma SplitFour(a: string, b: string, c: string, d: string, last: string)
    requires '/' !in a && '/' !in b && '/' !in c && '/' !in d && '/' !in last
    ensures Split(a + ['/'] + (b + ['/'] + (c + ['/'] + (d + ['/'] + last))), '/') == [a, b, c, d, last]
  {
    hide Split;
    SplitHead(a, b + ['/'] + (c + ['/'] + (d + ['/'] + last)), '/');
    SplitHead(b, c + ['/'] + (d + ['/'] + last), '/');
    SplitHead(c, d + ['/'] + last, '/');
    SplitHead(d, last, '/');
    SplitWhole(last, '/');
  }

  /** Confirming a generated key gives back entity type, entity id and the sanitised file name, for every file name. */
  lemma KeyRoundTrip(tenant: string, entityType: string, entityId: string, millis: nat, filename: string)
    requires '/' !in tenant && '/' !in entityType && '/' !in entityId
    ensures Confirm(tenant, ObjectKey(tenant, entityType, entityId, millis, filename)) ==
            Confirmed(entityType, entityId, Sanitise(filename))
  {
    var key := ObjectKey(tenant, entityType, entityId, millis, filename);
    SplitKey(tenant, entityType, entityId, millis, filename);
    assert Prefix(tenant) <= key;
    DropsAddedS(entityType);
    var last := Decimal(millis) + "-" + Sanitise(filename);
    assert Split(key, '/')[4..] == [last];
    StripsOnlyTimestamp(Decimal(millis), Sanitise(filename));
  }

  // ---------------------------------------------------------------- arbitrary tokens

  /** Characters outside the listed ones, and only those, become underscores. */
  lemma SanitisedAt(name: string, i: nat)
    requires i < |name|
    ensures var c := name[i];
            Sanitise(name)[i] ==
              if 'a' <= c <= 'z' || 'A' <= c <= 'Z' || '0' <= c <= '9' || c in "._-" then c else '_'
  {
  }

  /** A name that does not begin with digits and a dash is left alone. */
  lemma KeepsOtherNames(name: string)
    requires forall n | 0 < n < |name| && name[n] == '-' :: !AllDigits(name[..n])
    ensures StripTimestamp(name) == name
  {
  }

  lemma DropsOneFinalS(s: string)
    ensures (s == [] || s[|s| - 1] != 's') ==> DropFinalS(s) == s
    ensures DropFinalS(s + "s") == s
  {
    DropsAddedS(s);
  }

  /** What any token of the tenant is read as; the file name may hold further slashes. */
  lemma ConfirmReads(tenant: string, plural: string, entityId: string, rest: string)
    requires '/' !in tenant && '/' !in plural && '/' !in entityId
    ensures Confirm(tenant, "tenants/" + tenant + "/" + plural + "/" + entityId + "/" + rest) ==
            Confirmed(DropFinalS(plural), entityId, StripTimestamp(rest))
  {
    hide Split, Join, DropFinalS, StripTimestamp;
    var token := "tenants/" + tenant + "/" + plural + "/" + entityId + "/" + rest;
    var tail := tenant + ['/'] + (plural + ['/'] + (entityId + ['/'] + rest));
    assert token == "tenants" + ['/'] + tail;
    SplitHead("tenants", tail, '/');
    SplitHead(tenant, plural + ['/'] + (entityId + ['/'] + rest), '/');
    SplitHead(plural, entityId + ['/'] + rest, '/');
    SplitHead(entityId, rest, '/');
    var parts := Split(token, '/');
    assert parts == ["tenants", tenant, plural, entityId] + Split(rest, '/');
    assert parts[4..] == Split(rest, '/');
    JoinSplit(rest, '/');
    assert Prefix(tenant) <= token;
  }

  lemma JoinedPrefix(parts: seq<string>, tenant: string)
    requires |parts| >= 3 && parts[0] == "tenants" && parts[1] == tenant
    ensures Prefix(tenant) <= Join(parts, "/")
  {
    JoinHead(parts, "/");
    JoinHead(parts[1..], "/");
    hide Join;
    assert Join(parts, "/") == ("tenants" + "/" + tenant + "/") + Join(parts[1..][1..], "/");
  }

  lemma JoinHead(parts: seq<string>, sep: string)
    requires |parts| >= 2
    ensures Join(parts, sep) == parts[0] + sep + Join(parts[1..], sep)
  {
  }

  /** A slash-free tenant accepts a token exactly when it has five parts, the first two `tenants` and the tenant. */
  lemma AcceptedTokens(tenant: string, token: string)
    requires '/' !in tenant
    ensures Confirm(tenant, token).Confirmed? <==>
            (var parts := Split(token, '/'); |parts| >= 5 && parts[0] == "tenants" && parts[1] == tenant)
  {
    var parts := Split(token, '/');
    if |parts| >= 5 && parts[0] == "tenants" && parts[1] == tenant {
      JoinSplit(token, '/');
      JoinedPrefix(parts, tenant);
    }
    if Prefix(tenant) <= token {
      var rest := token[|Prefix(tenant)|..];
      assert token == "tenants" + ['/'] + (tenant + ['/'] + rest);
      SplitHead("tenants", tenant + ['/'] + rest, '/');
      SplitHead(tenant, rest, '/');
    }
  }

  /** No token is accepted for two tenants. */
  lemma TokensBelongToOneTenant(tenant: string, other: string, token: string)
    requires '/' !in tenant && '/' !in other
    requires Confirm(tenant, token).Confirmed? && Confirm(other, token).Confirmed?
    ensures tenant == other
  {
    AcceptedTokens(tenant, token);
    AcceptedTokens(other, token);
  }

  // ---------------------------------------------------------------- FilesService

  datatype FileRow = FileRow(
    tenant: string, entityType: string, entityId: string, bucket: string, objectKey: string, originalFilename: string,
    mimeType: string, fileSize: nat, uploadedBy: string, createdAt: int)

  datatype FileReply =
    | UnknownEntityType
    | NotFound
    | Refused(why: Confirmation)
    | DuplicateKey
    | UploadTo(uploadUrl: string, objectKey: string, expiresIn: nat)
    | Saved(row: FileRow)
    | Deleted

  /** The unique constraint on object_key. */
  ghost predicate OneRowPerKey(files: map<string, FileRow>) {
    forall a, b | a in files && b in files && a != b :: files[a].objectKey != files[b].objectKey
  }

  predicate KeyTaken(files: map<string, FileRow>, objectKey: string) {
    exists id | id in files :: files[id].objectKey == objectKey
  }

  class FilesService {
    /** The files table by id. */
    var files: map<string, FileRow>
    /** Per entity table, the ids and their tenants. */
    var entities: map<string, map<string, string>>

    /** The bucket, the lifetime of upload URLs, and how MinIO signs a key for that long. */
    const bucket: string
    const expiry: nat
    const presign: (string, nat) -> string

    constructor (bucket: string, expiry: nat, presign: (string, nat) -> string, entities: map<string, map<string, string>>)
      ensures this.bucket == bucket && this.expiry == expiry && this.presign == presign
      ensures this.entities == entities && files == map[]
    {
      this.bucket, this.expiry, this.presign := bucket, expiry, presign;
      this.entities, files := entities, map[];
    }

    method RequestUploadUrl(tenant: string, entityType: string, entityId: string, filename: string, millis: nat)
      returns (reply: FileReply)
      ensures reply ==
        if entityType !in entities then UnknownEntityType
        else if entityId !in entities[entityType] || entities[entityType][entityId] != tenant then NotFound
        else
          var objectKey := ObjectKey(tenant, entityType, entityId, millis, filename);
          UploadTo(presign(objectKey, expiry), objectKey, expiry)
    {
      if entityType !in entities {
        return UnknownEntityType;
      }
      var table := entities[entityType];
      if !(entityId in table && table[entityId] == tenant) {
        return NotFound;
      }
      var objectKey := "tenants/" + tenant + "/" + entityType + "s/" + entityId + "/" + Decimal(millis) + "-" + Sanitise(filename);
      reply := UploadTo(presign(objectKey, expiry), objectKey, expiry);
    }

    /** A confirmed upload adds one row of the caller's tenant under the new id; confirming a key twice adds nothing. */
    method ConfirmUpload(tenant: string, user: string, token: string, size: Option<nat>, newId: string, now: int)
      returns (reply: FileReply)
      modifies this`files
      ensures match reply
        case Saved(row) =>
          && Confirm(tenant, token) == Confirmed(row.entityType, row.entityId, row.originalFilename)
          && row.tenant == tenant && row.objectKey == token && row.uploadedBy == user
          && row.bucket == bucket && row.mimeType == "application/octet-stream" && row.createdAt == now
          && row.fileSize == (if size.Some? then size.value else 0)
          && newId !in old(files) && !KeyTaken(old(files), token) && files == old(files)[newId := row]
        case Refused(why) => why == Confirm(tenant, token) && !why.Confirmed? && files == old(files)
        case DuplicateKey =>
          Confirm(tenant, token).Confirmed? && (newId in old(files) || KeyTaken(old(files), token)) && files == old(files)
        case _ => false
      ensures OneRowPerKey(old(files)) ==> OneRowPerKey(files)
    {
      var confirmation := Confirm(tenant, token);
      match confirmation
      case Confirmed(entityType, entityId, originalFilename) =>
        if newId in files || KeyTaken(files, token) {
          return FileReply.DuplicateKey;
        }
        var row := FileRow(
          tenant, entityType, entityId, bucket, token, originalFilename,
          "application/octet-stream", if size.Some? then size.value else 0, user, now);
        files := files[newId := row];
        reply := Saved(row);
      case _ =>
        reply := Refused(confirmation);
    }

    /** Only a row of the caller's tenant is deleted, and only that row. */
    method Delete(tenant: string, id: string) returns (reply: FileReply)
      modifies this`files
      ensures if id in old(files) && old(files)[id].tenant == tenant
              then reply == Deleted && files == old(files) - {id}
              else reply == NotFound && files == old(files)
    {
      if !(id in files && files[id].tenant == tenant) {
        return NotFound;
      }
      files := files - {id};
      reply := Deleted;
    }
  }
}
