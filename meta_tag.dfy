/**
 * The parsing of one `meta` struct tag in reflect/tagExample.go: the tag is
 * split on ',' (parts are not trimmed), a part equal to "required" sets
 * isRequired, and a part starting with "description:" overwrites the
 * description with the rest of that part.
 */
module MetaTag {
  import opened GoStrings

  const Required: string := "required"
  const DescriptionKey: string := "description:"

  /** Index i is the last part that carries the description key. */
  predicate LastDescription(parts: seq<string>, i: int)
  {
    0 <= i < |parts| && HasPrefix(parts[i], DescriptionKey)
    && forall j :: i < j < |parts| ==> !HasPrefix(parts[j], DescriptionKey)
  }

  /** Line 24: the tag is split on ',' and the parts are scanned. */
  method ParseMeta(metaTag: string) returns (isRequired: bool, description: string)
    ensures isRequired <==> exists i :: 0 <= i < |Split(metaTag, ',')| && Split(metaTag, ',')[i] == Required
    ensures (forall i :: 0 <= i < |Split(metaTag, ',')| ==> !HasPrefix(Split(metaTag, ',')[i], DescriptionKey))
      ==> description == ""
    ensures forall i :: LastDescription(Split(metaTag, ','), i) ==>
      description == TrimPrefix(Split(metaTag, ',')[i], DescriptionKey)
    ensures ',' !in description
  {
    var metaParts := Split(metaTag, ',');
    SplitPartsFree(metaTag, ',');
    isRequired, description := ParseParts(metaParts);
  }

  /** Lines 28-37: the loop over the parts; a later description part overwrites
      an earlier one. */
  method ParseParts(metaParts: seq<string>) returns (isRequired: bool, description: string)
    ensures isRequired <==> exists i :: 0 <= i < |metaParts| && metaParts[i] == Required
    ensures (forall i :: 0 <= i < |metaParts| ==> !HasPrefix(metaParts[i], DescriptionKey)) ==> description == ""
    ensures forall i :: LastDescription(metaParts, i) ==> description == TrimPrefix(metaParts[i], DescriptionKey)
    ensures (forall i :: 0 <= i < |metaParts| ==> ',' !in metaParts[i]) ==> ',' !in description
  {
    isRequired := false;
    description := "";
    ghost var last := -1;
    for k := 0 to |metaParts|
      invariant isRequired <==> exists i :: 0 <= i < k && metaParts[i] == Required
      invariant -1 <= last < k
      invariant last == -1 ==> description == "" && forall i :: 0 <= i < k ==> !HasPrefix(metaParts[i], DescriptionKey)
      invariant last != -1 ==> (HasPrefix(metaParts[last], DescriptionKey)
        && (forall j :: last < j < k ==> !HasPrefix(metaParts[j], DescriptionKey))
        && description == TrimPrefix(metaParts[last], DescriptionKey))
      invariant description == "" || (last != -1 && forall c :: c in description ==> c in metaParts[last])
    {
      var part := metaParts[k];
      if part == Required {
        isRequired := true;
      } else if HasPrefix(part, DescriptionKey) {
        description := TrimPrefix(part, DescriptionKey);
        last := k;
        assert part == DescriptionKey + description;
      }
    }
  }

  /** A part made of the description key and a rest carries the key and yields the rest. */
  lemma DescriptionPart(part: string, rest: string)
    requires part == DescriptionKey + rest
    ensures HasPrefix(part, DescriptionKey) && TrimPrefix(part, DescriptionKey) == rest
  {
    assert part[..|DescriptionKey|] == DescriptionKey;
  }

  /** main's output for the Product fields: the tag "id,primary_key" has
      neither attribute ... */
  method IdExample() returns (isRequired: bool, description: string)
    ensures !isRequired && description == ""
  {
    var id, key := "id", "primary_key";
    assert ',' !in id && ',' !in key;
    SplitOfTwo(id, key, ',');
    isRequired, description := ParseMeta(id + "," + key);
    assert |id| < |DescriptionKey| && |key| < |DescriptionKey|;
    assert id != Required && key[0] != Required[0];
  }

  /** ... "name,required,description:Product name" is required with
      description "Product name" ... */
  method NameExample() returns (isRequired: bool, description: string)
    ensures isRequired && description == "Product name"
  {
    var name, rest := "name", "Product name";
    var described := DescriptionKey + rest;
    assert ',' !in name && ',' !in Required && ',' !in described;
    SplitOfThree(name, Required, described, ',');
    DescriptionPart(described, rest);
    var tag := name + "," + Required + "," + described;
    isRequired, description := ParseMeta(tag);
    assert Split(tag, ',')[1] == Required;
    assert LastDescription(Split(tag, ','), 2);
  }

  /** ... and in the tag "description,optional,description:Detailed product
      description" the bare "description" part lacks the colon, so only the
      final part sets the description. */
  method DescriptionExample() returns (isRequired: bool, description: string)
    ensures !isRequired && description == "Detailed product description"
  {
    var bare, optional, rest := "description", "optional", "Detailed product description";
    var described := DescriptionKey + rest;
    assert ',' !in bare && ',' !in optional && ',' !in described;
    SplitOfThree(bare, optional, described, ',');
    DescriptionPart(described, rest);
    isRequired, description := ParseMeta(bare + "," + optional + "," + described);
    var parts := [bare, optional, described];
    assert LastDescription(parts, 2);
    assert |bare| != |Required| && optional[0] != Required[0] && |described| != |Required|;
  }
}
