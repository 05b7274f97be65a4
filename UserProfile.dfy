/**
 * A member's profile: the standard fields and a map of dynamic attributes
 * (stored as a JSON column), with the check that the attributes a site
 * requires are all filled in.
 */
module Profiles {
  import opened Wrappers

  /** One JSON attribute value. */
  datatype AttributeValue = Text(text: string) | Number(number: int) | Flag(flag: bool)

  /** A stored mapping: a value, or null (a JSON column can hold a null). */
  type Attributes = map<string, Option<AttributeValue>>

  datatype ProfileError = IllegalArgument(message: string, key: string)

  const MissingAttributeMessage := "필수 속성이 누락되었습니다: "

  /** The key is mapped to a non-null value. */
  predicate Present(attributes: Attributes, key: string) {
    key in attributes && attributes[key].Some?
  }

  /** No key is mapped to null. */
  predicate NoNullValues(attributes: Attributes) {
    forall key :: key in attributes ==> attributes[key].Some?
  }

  /** The position of the first required key, in list order, that is absent or null; |keys| when none is. */
  function FirstMissing(attributes: Attributes, keys: seq<string>): (i: nat)
    ensures i <= |keys|
    ensures forall j :: 0 <= j < i ==> Present(attributes, keys[j])
    ensures i < |keys| ==> !Present(attributes, keys[i])
  {
    if keys == [] then 0
    else if !Present(attributes, keys[0]) then 0
    else 1 + FirstMissing(attributes, keys[1..])
  }

  /** The map after setAttribute: a null value removes the key, any other maps it. */
  function Assigned(attributes: Attributes, key: string, value: Option<AttributeValue>): (r: Attributes)
    ensures value.None? ==> key !in r
    ensures value.Some? ==> key in r && r[key] == value
    ensures forall k :: k != key ==> (k in r <==> k in attributes) && (k in r ==> r[k] == attributes[k])
  {
    if value.None? then attributes - {key} else attributes[key := value]
  }

  /** setAttribute never introduces a null. */
  lemma AssignedKeepsNoNulls(attributes: Attributes, key: string, value: Option<AttributeValue>)
    requires NoNullValues(attributes)
    ensures NoNullValues(Assigned(attributes, key, value))
  {
  }

  /** Setting a required key to a value fixes that key and no other. */
  lemma {:induction false} AssignedSatisfiesKey(attributes: Attributes, keys: seq<string>, key: string, v: AttributeValue)
    requires forall j :: 0 <= j < |keys| ==> keys[j] == key || Present(attributes, keys[j])
    ensures FirstMissing(Assigned(attributes, key, Some(v)), keys) == |keys|
  {
    if keys != [] {
      AssignedSatisfiesKey(attributes, keys[1..], key, v);
    }
  }

  /** Clearing a required key makes validation fail at that key or an earlier one. */
  lemma ClearedKeyFails(attributes: Attributes, keys: seq<string>, i: int)
    requires 0 <= i < |keys|
    ensures FirstMissing(Assigned(attributes, keys[i], None), keys) <= i
  {
  }

  class UserProfile {
    var userId: Option<nat>
    var realName: string
    var nickname: Option<string>
    var phoneNumber: string
    var email: string
    var attributes: Attributes

    /** The builder: the standard fields as given, no user yet, no attributes. */
    constructor (realName: string, nickname: Option<string>, phoneNumber: string, email: string)
      ensures this.realName == realName && this.nickname == nickname
      ensures this.phoneNumber == phoneNumber && this.email == email
      ensures userId.None? && attributes == map[]
      ensures NoNullValues(attributes)
    {
      this.realName := realName;
      this.nickname := nickname;
      this.phoneNumber := phoneNumber;
      this.email := email;
      userId := None;
      attributes := map[];
    }

    /** assignUser: links the profile to its user. */
    method AssignUser(user: nat)
      modifies this
      ensures userId == Some(user)
      ensures attributes == old(attributes) && realName == old(realName) && email == old(email)
      ensures nickname == old(nickname) && phoneNumber == old(phoneNumber)
    {
      userId := Some(user);
    }

    /**
     * setAttribute: null removes the key, a value maps it; other keys and
     * the standard fields are unchanged, and no null is ever stored.
     */
    method SetAttribute(key: string, value: Option<AttributeValue>)
      modifies this
      ensures attributes == Assigned(old(attributes), key, value)
      ensures NoNullValues(old(attributes)) ==> NoNullValues(attributes)
      ensures userId == old(userId) && realName == old(realName) && email == old(email)
      ensures nickname == old(nickname) && phoneNumber == old(phoneNumber)
    {
      if value.None? {
        attributes := attributes - {key};
      } else {
        attributes := attributes[key := value];
      }
      if NoNullValues(old(attributes)) {
        AssignedKeepsNoNulls(old(attributes), key, value);
      }
    }

    /** getAttribute: the mapped value, null when the key is absent or mapped to null. */
    function GetAttribute(key: string): (r: Option<AttributeValue>)
      reads this
      ensures r.Some? <==> Present(attributes, key)
      ensures r.Some? ==> Some(r.value) == attributes[key]
    {
      if key in attributes then attributes[key] else None
    }

    /**
     * validateRequiredAttributes: walks the keys in order and fails with the
     * first one that is absent or null; succeeds, changing nothing, when every
     * key is present.
     */
    method ValidateRequiredAttributes(requiredKeys: seq<string>) returns (r: Result<(), ProfileError>)
      ensures r.Ok? <==> forall j :: 0 <= j < |requiredKeys| ==> Present(attributes, requiredKeys[j])
      ensures r.Err? ==>
        var i := FirstMissing(attributes, requiredKeys);
        i < |requiredKeys|
        && r.error == IllegalArgument(MissingAttributeMessage + requiredKeys[i], requiredKeys[i])
    {
      for i := 0 to |requiredKeys|
        invariant forall j :: 0 <= j < i ==> Present(attributes, requiredKeys[j])
      {
        var key := requiredKeys[i];
        if !(key in attributes) || attributes[key].None? {
          FirstMissingIs(attributes, requiredKeys, i);
          return Err(IllegalArgument(MissingAttributeMessage + key, key));
        }
      }
      return Ok(());
    }
  }

  /** A missing key preceded only by present ones is the first missing key. */
  lemma FirstMissingIs(attributes: Attributes, keys: seq<string>, i: int)
    requires 0 <= i < |keys| && !Present(attributes, keys[i])
    requires forall j :: 0 <= j < i ==> Present(attributes, keys[j])
    ensures FirstMissing(attributes, keys) == i
  {
  }
}
