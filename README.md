# Whydah UserAdminService core, modelled in Dafny

This project models three small pieces of the Whydah UserAdminService, an
administrative proxy in front of the UserIdentityBackend (UIB):

- **`Application`** (`application.dfy`, module `Applications`). The value object
  has an id, a name, an optional default role, an optional default org id and
  an ordered list of available org ids. The list is changed in place by
  add-by-value and remove-by-value, and a null argument is ignored. Its XML
  form is written by hand-made string templating with no escaping. Its
  `fromXml` maps extracted values back into a new object.
- **`UserPropertyAndRole`** (`user_property_and_role.dfy`, module
  `UserPropertiesAndRoles`). The fact "user *uid* holds role (name, value) in an
  application, within an organisation". `equals` and `hashCode` look at six
  fields. They leave out `id` but keep the two name fields marked transient.
  The name getters default to `""`. `fromXml` fills four fields.
- **`UibAuthConnection.logonUser`** (`uib_auth_connection.dfy`, module `UibAuth`).
  It builds the request and classifies the backend's status. 200 gives the
  body unchanged. 400 gives `BadRequestException`. Any other status gives
  `AuthenticationFailedException`.

`java_lang.dfy` (module `JavaLang`) holds the Java semantics these rely on:
- a nullable `String` is `Option<string>`;
- string concatenation renders null as `"null"`;
- `Integer.toString`, with a reader that inverts it;
- Java `int` arithmetic as `bv32`, which wraps as Java does;
- `String.hashCode` as the 31-polynomial over UTF-16 code units.

Classes are used where the source updates fields in place: both value objects
and their setters. `buildAvailableOrgIsXml` keeps its StringBuilder loop, and
`fromXml` keeps its loop of `addAvailableOrgId` calls. `hashCode` keeps its
step-by-step accumulator. `toXML`'s concatenation, `equals`, the getters and
the status switch are functions. The HTTP round trip is a parameter
`backend: Request -> Response`.

The XML serialiser is paired with a reference reader, `ReadApplicationXml`,
written for the fixed schema that `toXML` emits. It is proved to invert the
writer whenever every value satisfies `Plain`: only XML 1.0 characters, and
no `<`, `&`, `>` or carriage return (`ReadApplicationXmlInverts`).
`XmlRoundTrip` then chains `ToXml`, the reader and `FromXml`.

### Behaviour of the source worth noting

- When a 400 comes back, the response body is only logged. The
  `BadRequestException` message holds the response's own `toString` and the
  status, not the body.
- `Application.fromXml` does not always return null on failure. The object is
  built before the org-id loop. An exception inside that loop is caught, and
  the partly filled object is returned (`Application.FromXml`).
- Writing and then reading an application does not bring back null fields.
  A null field is written as the text `null` and read back as the string
  `"null"` (`NullFieldsWriteAsNull`, `XmlRoundTrip`).
- `toXML` writes the templates' indentation and newlines verbatim, and
  escapes no value.
- `Application.toString` throws when an org id is null, because Guava's
  `Joiner` has no null policy there. `Application.ToString` returns `None` in
  that case.

## Model

| member | source | states |
|---|---|---|
| `JavaLang.RenderConflatesNull` | src/main/java/net/whydah/admin/application/Application.java:113-116 | concatenating a null reference gives "null", so null and the string "null" give the same text |
| `JavaLang.NullSafeEqualsIsEquality` | src/main/java/net/whydah/admin/user/uib/UserPropertyAndRole.java:79-96 | the per-field test `a != null ? a.equals(b) : b == null` holds exactly when the two nullable values are equal |
| `JavaLang.Poly31Snoc` | src/main/java/net/whydah/admin/user/uib/UserPropertyAndRole.java:103-108 | folding one more term into the 31-polynomial is one `31 * h + x` step in int arithmetic |
| `JavaLang.Poly31Single` | src/main/java/net/whydah/admin/user/uib/UserPropertyAndRole.java:103 | starting the accumulator at the first field's hash is the same as folding that hash from 0 |
| `JavaLang.Utf16Units` | src/main/java/net/whydah/admin/user/uib/UserPropertyAndRole.java:103-108 | a character is one code unit below U+10000, otherwise a high and low surrogate that encode it |
| `JavaLang.StringHashCodeSnoc` | src/main/java/net/whydah/admin/user/uib/UserPropertyAndRole.java:103-108 | String.hashCode absorbs each further BMP character as `31 * h + c` |
| `JavaLang.NatToString` | src/main/java/net/whydah/admin/auth/UibAuthConnection.java:52 | the decimal text of a status code is non-empty, made of digits and without leading zeros |
| `JavaLang.ParseNatToString` | src/main/java/net/whydah/admin/auth/UibAuthConnection.java:52 | reading the decimal text of a natural number back returns that number |
| `JavaLang.IntToStringRoundTrip` | src/main/java/net/whydah/admin/auth/UibAuthConnection.java:49-52 | `"" + n` is injective on int: its text parses back to n, negative values included |
| `Applications.FirstIndexOf` | src/main/java/net/whydah/admin/application/Application.java:196-200 | the index found holds the value, no earlier index does, and it is the length exactly when the value is absent |
| `Applications.RemoveFirstEffect` | src/main/java/net/whydah/admin/application/Application.java:196-200 | removing an absent id changes nothing; removing a present one shortens the list by one and takes out exactly one copy |
| `Applications.RemoveFirstKeepsPrefixAndDuplicates` | src/main/java/net/whydah/admin/application/Application.java:196-200 | only the first occurrence is removed, the rest keep their order, and a duplicate survives |
| `Applications.OrgIdElementsAppend` | src/main/java/net/whydah/admin/application/Application.java:124-126 | the org-id elements of two lists concatenated are the elements of each, in order |
| `Applications.EmptyOrgIdsBlock` | src/main/java/net/whydah/admin/application/Application.java:121-129 | an empty list gives exactly `<availableOrgIds>\n</availableOrgIds>` |
| `Applications.OrgIdsBlockAppend` | src/main/java/net/whydah/admin/application/Application.java:121-129 | one more org id adds exactly one `<orgId>` element at the end of the block |
| `Applications.NullFieldsWriteAsNull` | src/main/java/net/whydah/admin/application/Application.java:110-119 | null fields and fields holding "null" produce the same document |
| `Applications.ReadOrgIdsOf` | src/main/java/net/whydah/admin/application/Application.java:121-129 | the reference reader recovers every org id, rendered, in list order from the block |
| `Applications.ReadApplicationXmlInverts` | src/main/java/net/whydah/admin/application/Application.java:110-129 | for values satisfying `Plain`, reading toXML's output gives back id, name, default role, default org id and the org ids in order, each as rendered |
| `Applications.JoinSucceedsIffNoNull` | src/main/java/net/whydah/admin/application/Application.java:212-215 | joining the org ids succeeds exactly when none is null |
| `Applications.JoinAppend` | src/main/java/net/whydah/admin/application/Application.java:214 | joining one more id appends the separator and that id |
| `Applications.OrgIdsBeforeFailure` | src/main/java/net/whydah/admin/application/Application.java:146-157 | the ids fromXml keeps are the nodes before the first one that threw, in node order: a prefix of the nodes with no null, followed by a failing node or the end |
| `Applications.Application.constructor` | src/main/java/net/whydah/admin/application/Application.java:45-52 | the two-argument constructor stores id and name and leaves both defaults null and the list empty |
| `Applications.Application.WithDefaults` | src/main/java/net/whydah/admin/application/Application.java:53-58 | the four-argument constructor stores each argument and leaves the list empty |
| `Applications.Application.WithOrgIds` | src/main/java/net/whydah/admin/application/Application.java:60-66 | the five-argument constructor stores each argument; a null list leaves the list empty |
| `Applications.Application.SetAvailableOrgIds` | src/main/java/net/whydah/admin/application/Application.java:181-185 | a non-null list replaces the list, null leaves it, and no other field changes |
| `Applications.Application.AddAvailableOrgId` | src/main/java/net/whydah/admin/application/Application.java:187-194 | a non-null id is appended at the end, duplicates kept; null changes nothing; no other field changes |
| `Applications.Application.RemoveAvailableOrgId` | src/main/java/net/whydah/admin/application/Application.java:196-200 | a non-null id has its first occurrence removed; null changes nothing; no other field changes |
| `Applications.Application.SetDefaultOrgid` | src/main/java/net/whydah/admin/application/Application.java:202-204 | only the default org id changes |
| `Applications.Application.SetDefaultRole` | src/main/java/net/whydah/admin/application/Application.java:206-208 | only the default role changes |
| `Applications.Application.SetId` | src/main/java/net/whydah/admin/application/Application.java:225-227 | only the id changes |
| `Applications.Application.BuildAvailableOrgIdsXml` | src/main/java/net/whydah/admin/application/Application.java:121-129 | the StringBuilder loop yields the opening tag, one element per id in list order, then the closing tag |
| `Applications.Application.ToXml` | src/main/java/net/whydah/admin/application/Application.java:110-119 | the output is the prolog, the four field lines in fixed order with values copied verbatim, then the org-id block |
| `Applications.Application.ToString` | src/main/java/net/whydah/admin/application/Application.java:210-223 | toString yields text exactly when no org id is null, and throws otherwise |
| `Applications.Application.FromXml` | src/main/java/net/whydah/admin/application/Application.java:131-158 | a parse failure gives null; otherwise a new object holds the extracted strings and the org ids read before the first node that threw, in node order |
| `Applications.XmlRoundTrip` | src/main/java/net/whydah/admin/application/Application.java:110-158 | writing, reading and mapping back gives every field as rendered, null as "null", and the org ids in order |
| `UserPropertiesAndRoles.UserPropertyAndRole.constructor` | src/main/java/net/whydah/admin/user/uib/UserPropertyAndRole.java:55-56 | the no-argument constructor leaves every field null |
| `UserPropertiesAndRoles.UserPropertyAndRole.Full` | src/main/java/net/whydah/admin/user/uib/UserPropertyAndRole.java:58-66 | the full constructor stores each argument unchanged |
| `UserPropertiesAndRoles.UserPropertyAndRole.Equals` | src/main/java/net/whydah/admin/user/uib/UserPropertyAndRole.java:69-99 | equals holds exactly when the other object is non-null and its uid, applicationId, applicationName, organizationName, role name and role value are equal |
| `UserPropertiesAndRoles.UserPropertyAndRole.FieldHashes` | src/main/java/net/whydah/admin/user/uib/UserPropertyAndRole.java:103-108 | the hashed values are those six fields in hashCode's order, null contributing 0 |
| `UserPropertiesAndRoles.UserPropertyAndRole.HashCode` | src/main/java/net/whydah/admin/user/uib/UserPropertyAndRole.java:102-110 | hashCode is the 31-polynomial in int arithmetic over the six field hashes |
| `UserPropertiesAndRoles.UserPropertyAndRole.GetApplicationName` | src/main/java/net/whydah/admin/user/uib/UserPropertyAndRole.java:159-161 | returns "" for a null application name and the stored value otherwise |
| `UserPropertiesAndRoles.UserPropertyAndRole.GetOrganizationName` | src/main/java/net/whydah/admin/user/uib/UserPropertyAndRole.java:163-165 | returns "" for a null organisation name and the stored value otherwise |
| `UserPropertiesAndRoles.UserPropertyAndRole.SetId` | src/main/java/net/whydah/admin/user/uib/UserPropertyAndRole.java:124-126 | only the id changes, and none of the compared fields does |
| `UserPropertiesAndRoles.UserPropertyAndRole.SetUid` | src/main/java/net/whydah/admin/user/uib/UserPropertyAndRole.java:127-129 | only the uid changes |
| `UserPropertiesAndRoles.UserPropertyAndRole.SetApplicationId` | src/main/java/net/whydah/admin/user/uib/UserPropertyAndRole.java:130-132 | only the application id changes |
| `UserPropertiesAndRoles.UserPropertyAndRole.SetApplicationName` | src/main/java/net/whydah/admin/user/uib/UserPropertyAndRole.java:133-135 | only the application name changes |
| `UserPropertiesAndRoles.UserPropertyAndRole.SetOrganizationName` | src/main/java/net/whydah/admin/user/uib/UserPropertyAndRole.java:140-142 | only the organisation name changes |
| `UserPropertiesAndRoles.UserPropertyAndRole.SetApplicationRoleName` | src/main/java/net/whydah/admin/user/uib/UserPropertyAndRole.java:143-145 | only the role name changes |
| `UserPropertiesAndRoles.UserPropertyAndRole.SetApplicationRoleValue` | src/main/java/net/whydah/admin/user/uib/UserPropertyAndRole.java:146-148 | only the role value changes |
| `UserPropertiesAndRoles.UserPropertyAndRole.FromXml` | src/main/java/net/whydah/admin/user/uib/UserPropertyAndRole.java:173-197 | a failure gives null; otherwise only id (from appId), application name, role name and role value are set, uid, application id and organisation name stay null, and orgID is dropped |
| `UserPropertiesAndRoles.Poly31Six` | src/main/java/net/whydah/admin/user/uib/UserPropertyAndRole.java:103-108 | the fold over six hashes is the nested `31 * result + h` chain hashCode writes out |
| `UserPropertiesAndRoles.EqualsReflexive` | src/main/java/net/whydah/admin/user/uib/UserPropertyAndRole.java:69-99 | every object equals itself |
| `UserPropertiesAndRoles.EqualsSymmetric` | src/main/java/net/whydah/admin/user/uib/UserPropertyAndRole.java:69-99 | a equals b exactly when b is non-null and b equals a |
| `UserPropertiesAndRoles.EqualsTransitive` | src/main/java/net/whydah/admin/user/uib/UserPropertyAndRole.java:69-99 | equals is transitive |
| `UserPropertiesAndRoles.EqualsNull` | src/main/java/net/whydah/admin/user/uib/UserPropertyAndRole.java:73-75 | no object equals null |
| `UserPropertiesAndRoles.EqualsIgnoresId` | src/main/java/net/whydah/admin/user/uib/UserPropertyAndRole.java:69-110 | two objects differing only in id are equal both ways and hash alike |
| `UserPropertiesAndRoles.EqualsSeesEveryKeyField` | src/main/java/net/whydah/admin/user/uib/UserPropertyAndRole.java:79-96 | a difference in any one of the six compared fields makes the objects unequal |
| `UserPropertiesAndRoles.EqualObjectsHaveEqualHashes` | src/main/java/net/whydah/admin/user/uib/UserPropertyAndRole.java:69-110 | equal objects have equal hash codes |
| `UserPropertiesAndRoles.GetterDefaultHidesNull` | src/main/java/net/whydah/admin/user/uib/UserPropertyAndRole.java:82-84 | a null and an empty application name read alike through the getter yet make the objects unequal |
| `UibAuth.Classify` | src/main/java/net/whydah/admin/auth/UibAuthConnection.java:43-54 | 200 returns the body unchanged, 400 exactly gives BadRequest, every other status exactly gives AuthenticationFailed |
| `UibAuth.FailureMessageCarriesStatus` | src/main/java/net/whydah/admin/auth/UibAuthConnection.java:47-52 | the AuthenticationFailed message is the fixed prefix followed by the status code, which reads back; the BadRequest message ends with 400 |
| `UibAuth.AuthenticationFailedMessagesDistinguishStatus` | src/main/java/net/whydah/admin/auth/UibAuthConnection.java:50-52 | different statuses give different AuthenticationFailed messages |
| `UibAuth.UibAuthConnection.constructor` | src/main/java/net/whydah/admin/auth/UibAuthConnection.java:28-36 | the backend target is the configured URL, fixed for the object's life |
| `UibAuth.UibAuthConnection.LogonRequest` | src/main/java/net/whydah/admin/auth/UibAuthConnection.java:39-40 | the request goes to the fixed target under the path "/" + token id then "authenticate/user", with the credentials as its unmodified XML entity |
| `UibAuth.UibAuthConnection.LogonUser` | src/main/java/net/whydah/admin/auth/UibAuthConnection.java:38-55 | a value is returned exactly when the backend answers this request with 200, and it is the body; 400 and every other status give the two failures |
| `UibAuth.LogonRequestInjective` | src/main/java/net/whydah/admin/auth/UibAuthConnection.java:39-40 | two calls that send the same request had the same rendered token id and the same credential document |
| `UibAuth.LogonUserDependsOnlyOnOwnResponse` | src/main/java/net/whydah/admin/auth/UibAuthConnection.java:28-55 | a call's outcome depends only on the connection's target and the answer to its own request |

## Left out

- HTTP transport (`ClientBuilder`, `WebTarget.request`/`post`, `readEntity`): network I/O. The backend is the parameter `backend: Request -> Response`. How JAX-RS joins the two path segments into a URI is not modelled.
- Reading the `useridentitybackend` property through `AppConfig`: configuration lookup. The constructor takes the URL.
- DOM parsing and XPath evaluation inside both `fromXml` methods: library calls. The models start from the extracted strings, or from `None` for a failure. `ReadApplicationXml` is this model's own reader for `toXML`'s schema. It does not decode XML entities or normalise line ends.
- `Application.fromJson`, `Application.toJson` and `UserPropertyAndRole.toJson`: Jackson serialisation by reflection. The only visible rule, that the three Jackson exceptions become `IllegalArgumentException`, is not modelled either.
- Logging calls, Spring annotations and the private no-argument constructor, which only Jackson uses.
- `UserPropertyAndRole.toString`: diagnostic text only.
- Plain getters that return a field as stored (`getId`, `getUid`, `getApplicationId`, the role getters, and all getters of `Application`): a read of the Dafny field stands for each.
- `equals` compares `getClass()`. With no subclasses in the source, the model treats any non-null argument as the same class. `equals(Object)` called with an object of another class returns false; the parameter type `UserPropertyAndRole?` of `Equals` cannot express that call.
- Aliasing: `setAvailableOrgIds` and the five-argument constructor store the caller's list reference, and `getAvailableOrgIds` hands out the internal list. Changes made through either reference would show through the other. A fixed-size list given to `setAvailableOrgIds` makes later `addAvailableOrgId` and `removeAvailableOrgId` calls throw `UnsupportedOperationException`. The model copies the list as a value and does not capture either effect.
- Strings with unpaired surrogates: a Dafny `string` holds Unicode scalar values, so a Java `String` holding a lone surrogate, which `equals` and `hashCode` accept, cannot be represented.
- `Applications.Application.ToString`: it states only when the text exists and not the text itself, which is `ApplicationText`.
- `JavaLang.StringHashCodeSnoc`: it covers characters below U+10000 only. Supplementary characters add two code units, as `Utf16Units` states.
- `CredentialStore`: a single field with a getter and a setter. The service token id is an explicit parameter of `LogonUser` instead.
- `Applications.XmlRoundTrip`: it covers only values for which `Plain` holds. A document holding `]]>`, a character outside XML 1.0's Char production (U+0001, U+FFFE, U+FFFF and the like) or a carriage return is not modelled. The real parse in `fromXml` rejects the first two kinds and returns null, and it turns a carriage return into a newline. A lone `>` is left out as well, although the real `fromXml` reads it back unchanged.
- Concurrency: calls of `logonUser` share no mutable state. The model shows this as `LogonUserDependsOnlyOnOwnResponse`, and nothing further is modelled.
