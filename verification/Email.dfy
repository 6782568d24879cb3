/** src/domain/user.rs: the values validated at the type boundary. */
module Email {
  import opened Text
  import C = Constants

  /** `\w`; every character beyond ASCII counts as a word character here. */
  predicate IsWord(c: char) {
    'a' <= c <= 'z' || 'A' <= c <= 'Z' || '0' <= c <= '9' || c == '_' || c >= '\U{0080}'
  }

  predicate LocalPart(s: string) { s != [] && forall i | 0 <= i < |s| :: IsWord(s[i]) || s[i] in ".+-" }
  predicate HostLabel(s: string) { s != [] && forall i | 0 <= i < |s| :: IsWord(s[i]) || s[i] == '-' }
  predicate HostTail(s: string) { s != [] && forall i | 0 <= i < |s| :: IsWord(s[i]) || s[i] in ".-" }

  /** `Email::try_from` accepts: one left-to-right scan, cut at the first `@` and the first `.` behind it. */
  predicate IsEmail(s: string) {
    var at := IndexOf(s, '@');
    && at < |s|
    && var host := s[at + 1..];
       var dot := IndexOf(host, '.');
    && dot < |host|
    && LocalPart(s[..at]) && HostLabel(host[..dot]) && HostTail(host[dot + 1..])
  }

  ghost predicate Reads(s: string, local: string, site: string, tail: string) {
    s == local + "@" + site + "." + tail && LocalPart(local) && HostLabel(site) && HostTail(tail)
  }

  /** The scan accepts exactly the language of `^[\w.+-]+@[\w-]+\.[\w.-]+$`. */
  lemma EmailLanguage(s: string)
    ensures IsEmail(s) <==> exists local, site, tail :: Reads(s, local, site, tail)
  {
    if IsEmail(s) {
      var at := IndexOf(s, '@');
      var host := s[at + 1..];
      var dot := IndexOf(host, '.');
      assert s == s[..at] + "@" + host;
      assert host == host[..dot] + "." + host[dot + 1..];
      assert Reads(s, s[..at], host[..dot], host[dot + 1..]);
    }
    if exists local, site, tail :: Reads(s, local, site, tail) {
      var local, site, tail :| Reads(s, local, site, tail);
      EmailScan(s, local, site, tail);
    }
  }

  lemma EmailScan(s: string, local: string, site: string, tail: string)
    requires Reads(s, local, site, tail)
    ensures IsEmail(s)
  {
    var at := IndexOf(s, '@');
    assert s[|local|] == '@';
    assert at == |local| by {
      forall k | 0 <= k < |local| ensures s[k] != '@' { assert s[k] == local[k]; }
    }
    var host := s[at + 1..];
    assert s[..at] == local;
    assert host == site + "." + tail;
    var dot := IndexOf(host, '.');
    assert host[|site|] == '.';
    assert dot == |site| by {
      forall k | 0 <= k < |site| ensures host[k] != '.' { assert host[k] == site[k]; }
    }
    assert host[..dot] == site && host[dot + 1..] == tail;
  }

  /** `Password::try_from` accepts: a length in bytes, not in characters. */
  predicate IsPassword(s: string) {
    Utf8Length(s) >= C.MIN_PASSWORD_LENGTH
  }
}
