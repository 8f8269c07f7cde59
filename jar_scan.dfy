/** The rule both plugin managers use, while scanning a plugin jar, to turn a
    jar entry into the binary name of a class to load. */
module JarScan {
  import opened Lang
  import opened JavaStrings

  datatype JarEntry = JarEntry(name: string, isDirectory: bool)

  const CLASS_SUFFIX: string := ".class"

  /** The class named by a jar entry: only a file entry whose name ends in
      ".class" names one, and its name is the entry name with every '/' turned
      into '.' and the suffix cut off. */
  function ClassNameOf(e: JarEntry): (r: Option<string>)
    ensures r.Some? <==> !e.isDirectory && EndsWith(e.name, CLASS_SUFFIX)
    ensures r.Some? ==> |r.value| == |e.name| - |CLASS_SUFFIX|
    ensures r.Some? ==> forall i :: 0 <= i < |r.value| ==>
              r.value[i] == (if e.name[i] == '/' then '.' else e.name[i])
  {
    if !e.isDirectory && EndsWith(e.name, CLASS_SUFFIX) then
      var className := Replace(e.name, '/', '.');
      Some(className[..|className| - |CLASS_SUFFIX|])
    else
      None
  }

  /** The entry a class is stored under: its name with '.' turned into '/' and
      ".class" appended. */
  function EntryFor(className: string): (e: JarEntry)
    ensures !e.isDirectory
  {
    JarEntry(Replace(className, '.', '/') + CLASS_SUFFIX, false)
  }

  /** Scanning recovers every class name that has no '/' from the entry the
      class is stored under. */
  lemma EntryRoundTrip(className: string)
    requires '/' !in className
    ensures ClassNameOf(EntryFor(className)) == Some(className)
  {
    var e := EntryFor(className);
    assert e.name[|e.name| - |CLASS_SUFFIX|..] == CLASS_SUFFIX;
    assert EndsWith(e.name, CLASS_SUFFIX);
    var r := ClassNameOf(e);
    assert |r.value| == |className|;
    forall i | 0 <= i < |className|
      ensures r.value[i] == className[i]
    {
      assert e.name[i] == Replace(className, '.', '/')[i];
      assert className[i] != '/' by { assert className[i] in className; }
    }
    assert r.value == className;
  }
}
