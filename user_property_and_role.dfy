/** The UserPropertyAndRole value object: user `uid` holds the role
    (roleName, roleValue) in an application, within an organisation. Its
    equality and hashCode look at six of its seven fields, leaving out `id`
    but keeping the two name fields that are marked transient. */
module UserPropertiesAndRoles {
  import opened JavaLang

  /** What the XPath evaluations of fromXml yielded once the document parsed
      ("" for a missing element). */
  datatype RoleExtraction = RoleExtraction(appId: string, applicationName: string, orgId: string,
                                           roleName: string, roleValue: string)

  class UserPropertyAndRole {
    var id: Option<string>
    var uid: Option<string>
    var applicationId: Option<string>
    var applicationName: Option<string>    // transient in the source
    var organizationName: Option<string>   // transient in the source
    var applicationRoleName: Option<string>
    var applicationRoleValue: Option<string>

    constructor ()
      ensures id == None && uid == None && applicationId == None
      ensures applicationName == None && organizationName == None
      ensures applicationRoleName == None && applicationRoleValue == None
    {
      id, uid, applicationId := None, None, None;
      applicationName, organizationName := None, None;
      applicationRoleName, applicationRoleValue := None, None;
    }

    constructor Full(id: Option<string>, uid: Option<string>, applicationId: Option<string>,
                     applicationName: Option<string>, organizationName: Option<string>,
                     applicationRoleName: Option<string>, applicationRoleValue: Option<string>)
      ensures this.id == id && this.uid == uid && this.applicationId == applicationId
      ensures this.applicationName == applicationName && this.organizationName == organizationName
      ensures this.applicationRoleName == applicationRoleName && this.applicationRoleValue == applicationRoleValue
    {
      this.id := id;
      this.uid := uid;
      this.applicationId := applicationId;
      this.applicationName := applicationName;
      this.organizationName := organizationName;
      this.applicationRoleName := applicationRoleName;
      this.applicationRoleValue := applicationRoleValue;
    }

    /** The six fields equality and hashCode look at, in hashCode's order. */
    function Key(): seq<Option<string>>
      reads this
    {
      [uid, applicationId, applicationName, organizationName, applicationRoleName, applicationRoleValue]
    }

    /** equals: the same object, or another one whose six compared fields are
        pairwise equal, null matching only null. */
    predicate Equals(o: UserPropertyAndRole?)
      reads this, o
      ensures Equals(o) <==> o != null && Key() == o.Key()
    {
      if this == o then true
      else if o == null then false
      else
        NullSafeEquals(applicationId, o.applicationId)
        && NullSafeEquals(applicationName, o.applicationName)
        && NullSafeEquals(organizationName, o.organizationName)
        && NullSafeEquals(applicationRoleName, o.applicationRoleName)
        && NullSafeEquals(applicationRoleValue, o.applicationRoleValue)
        && NullSafeEquals(uid, o.uid)
    }

    /** The per-field hashes hashCode folds, null contributing 0. */
    function FieldHashes(): (hs: seq<Int32>)
      reads this
      ensures |hs| == |Key()|
      ensures forall i :: 0 <= i < |hs| ==> hs[i] == FieldHash(Key()[i])
    {
      [FieldHash(uid), FieldHash(applicationId), FieldHash(applicationName),
       FieldHash(organizationName), FieldHash(applicationRoleName), FieldHash(applicationRoleValue)]
    }

    /** hashCode: the accumulator starts at the uid's hash and absorbs each
        further field as `31 * result + hash` in int arithmetic. */
    method HashCode() returns (h: Int32)
      ensures h == Poly31(FieldHashes())
    {
      var result := FieldHash(uid);
      result := MulAdd31(result, FieldHash(applicationId));
      result := MulAdd31(result, FieldHash(applicationName));
      result := MulAdd31(result, FieldHash(organizationName));
      result := MulAdd31(result, FieldHash(applicationRoleName));
      result := MulAdd31(result, FieldHash(applicationRoleValue));
      Poly31Six(FieldHash(uid), FieldHash(applicationId), FieldHash(applicationName),
                FieldHash(organizationName), FieldHash(applicationRoleName), FieldHash(applicationRoleValue));
      h := result;
    }

    function GetApplicationName(): (r: string)
      reads this
      ensures applicationName.None? ==> r == ""
      ensures applicationName.Some? ==> r == applicationName.value
    {
      if applicationName.None? then "" else applicationName.value
    }

    function GetOrganizationName(): (r: string)
      reads this
      ensures organizationName.None? ==> r == ""
      ensures organizationName.Some? ==> r == organizationName.value
    {
      if organizationName.None? then "" else organizationName.value
    }

    method SetId(id: Option<string>)
      modifies this
      ensures this.id == id && Key() == old(Key())
    {
      this.id := id;
    }

    method SetUid(uid: Option<string>)
      modifies this
      ensures this.uid == uid && id == old(id)
      ensures applicationId == old(applicationId) && applicationName == old(applicationName)
      ensures organizationName == old(organizationName)
      ensures applicationRoleName == old(applicationRoleName) && applicationRoleValue == old(applicationRoleValue)
    {
      this.uid := uid;
    }

    method SetApplicationId(applicationId: Option<string>)
      modifies this
      ensures this.applicationId == applicationId && id == old(id) && uid == old(uid)
      ensures applicationName == old(applicationName) && organizationName == old(organizationName)
      ensures applicationRoleName == old(applicationRoleName) && applicationRoleValue == old(applicationRoleValue)
    {
      this.applicationId := applicationId;
    }

    method SetApplicationName(applicationName: Option<string>)
      modifies this
      ensures this.applicationName == applicationName && id == old(id) && uid == old(uid)
      ensures applicationId == old(applicationId) && organizationName == old(organizationName)
      ensures applicationRoleName == old(applicationRoleName) && applicationRoleValue == old(applicationRoleValue)
    {
      this.applicationName := applicationName;
    }

    method SetOrganizationName(organizationName: Option<string>)
      modifies this
      ensures this.organizationName == organizationName && id == old(id) && uid == old(uid)
      ensures applicationId == old(applicationId) && applicationName == old(applicationName)
      ensures applicationRoleName == old(applicationRoleName) && applicationRoleValue == old(applicationRoleValue)
    {
      this.organizationName := organizationName;
    }

    method SetApplicationRoleName(applicationRoleName: Option<string>)
      modifies this
      ensures this.applicationRoleName == applicationRoleName && id == old(id) && uid == old(uid)
      ensures applicationId == old(applicationId) && applicationName == old(applicationName)
      ensures organizationName == old(organizationName) && applicationRoleValue == old(applicationRoleValue)
    {
      this.applicationRoleName := applicationRoleName;
    }

    method SetApplicationRoleValue(applicationRoleValue: Option<string>)
      modifies this
      ensures this.applicationRoleValue == applicationRoleValue && id == old(id) && uid == old(uid)
      ensures applicationId == old(applicationId) && applicationName == old(applicationName)
      ensures organizationName == old(organizationName) && applicationRoleName == old(applicationRoleName)
    {
      this.applicationRoleValue := applicationRoleValue;
    }

    /** The field-population step of fromXml. None stands for the document not
        parsing or an evaluation throwing, which makes fromXml return null.
        The extracted orgID is read and dropped. */
    static method FromXml(parsed: Option<RoleExtraction>) returns (r: UserPropertyAndRole?)
      ensures r == null <==> parsed.None?
      ensures r != null ==> fresh(r)
      ensures r != null ==>
        r.id == Some(parsed.value.appId) &&
        r.applicationName == Some(parsed.value.applicationName) &&
        r.applicationRoleName == Some(parsed.value.roleName) &&
        r.applicationRoleValue == Some(parsed.value.roleValue)
      ensures r != null ==> r.uid == None && r.applicationId == None && r.organizationName == None
    {
      if parsed.None? {
        return null;
      }
      var e := parsed.value;
      r := new UserPropertyAndRole();
      r.SetId(Some(e.appId));
      r.SetApplicationName(Some(e.applicationName));
      r.SetApplicationRoleName(Some(e.roleName));
      r.SetApplicationRoleValue(Some(e.roleValue));
    }
  }

  /** The fold over six terms, spelled out as hashCode computes it. */
  lemma Poly31Six(a: Int32, b: Int32, c: Int32, d: Int32, e: Int32, f: Int32)
    ensures Poly31([a, b, c, d, e, f]) == MulAdd31(MulAdd31(MulAdd31(MulAdd31(MulAdd31(a, b), c), d), e), f)
  {
    Poly31Single(a);
    Poly31Snoc([a], b);
    assert [a] + [b] == [a, b];
    Poly31Snoc([a, b], c);
    assert [a, b] + [c] == [a, b, c];
    Poly31Snoc([a, b, c], d);
    assert [a, b, c] + [d] == [a, b, c, d];
    Poly31Snoc([a, b, c, d], e);
    assert [a, b, c, d] + [e] == [a, b, c, d, e];
    Poly31Snoc([a, b, c, d, e], f);
    assert [a, b, c, d, e] + [f] == [a, b, c, d, e, f];
  }

  // ---------------------------------------------------------------------
  // equals is an equivalence, ignores id, and agrees with hashCode

  lemma EqualsReflexive(a: UserPropertyAndRole)
    ensures a.Equals(a)
  {}

  lemma EqualsSymmetric(a: UserPropertyAndRole, b: UserPropertyAndRole?)
    ensures a.Equals(b) <==> b != null && b.Equals(a)
  {}

  lemma EqualsTransitive(a: UserPropertyAndRole, b: UserPropertyAndRole, c: UserPropertyAndRole?)
    requires a.Equals(b) && b.Equals(c)
    ensures a.Equals(c)
  {}

  lemma EqualsNull(a: UserPropertyAndRole)
    ensures !a.Equals(null)
  {}

  /** Two objects that differ only in id are equal and hash alike. */
  lemma EqualsIgnoresId(a: UserPropertyAndRole, b: UserPropertyAndRole)
    requires a.uid == b.uid && a.applicationId == b.applicationId
    requires a.applicationName == b.applicationName && a.organizationName == b.organizationName
    requires a.applicationRoleName == b.applicationRoleName && a.applicationRoleValue == b.applicationRoleValue
    ensures a.Equals(b) && b.Equals(a)
    ensures Poly31(a.FieldHashes()) == Poly31(b.FieldHashes())
  {}

  /** Each compared field matters: objects that differ in one of the six are
      not equal, whatever their ids. */
  lemma EqualsSeesEveryKeyField(a: UserPropertyAndRole, b: UserPropertyAndRole, i: nat)
    requires i < 6 && a.Key()[i] != b.Key()[i]
    ensures !a.Equals(b)
  {}

  lemma EqualObjectsHaveEqualHashes(a: UserPropertyAndRole, b: UserPropertyAndRole)
    requires a.Equals(b)
    ensures Poly31(a.FieldHashes()) == Poly31(b.FieldHashes())
  {}

  /** The getters' "" default hides a difference equals still sees: a null
      name and an empty name read alike but make the objects unequal. */
  lemma GetterDefaultHidesNull(a: UserPropertyAndRole, b: UserPropertyAndRole)
    requires a.applicationName == None && b.applicationName == Some("")
    ensures a.GetApplicationName() == b.GetApplicationName()
    ensures !a.Equals(b)
  {
    assert a.Key()[2] != b.Key()[2];
  }
}
