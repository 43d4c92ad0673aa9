# moto wire engine and backend state, modelled in Dafny

moto emulates Amazon Web Services in process. This project models its
schema-driven wire engine and the self-contained backend logic around it.

- **Request decoders.** Query/EC2 form, JSON, REST and XML decoders walk an operation's input shape against a raw request. moto/core/parse.py is modelled by `QueryDecode`, `JsonDecode`, `RestDecode` and `XmlDecode`; the older moto/motocore/parsers.py by `OldParsers`.
- **Response encoders.** moto/motocore/serialize.py holds the dict, Query, QueryJSON and JSON response serializers (`Serialize`), the REST parameter partition, URI template and payload helpers (`RestSerialize`), and the REST XML tree builder (`XmlSerialize`).
- **Operation router.** moto/core/routing.py (`Routing`) builds rules from the operations' HTTP bindings and matches a request to an operation. Werkzeug's matcher is replaced by a token matcher, proved sound and complete.
- **Shape model.** moto/core/model.py (`Shapes`) holds the shape datatype and its trait predicates.
- **Backend state.**
  - RDS snapshots and cluster snapshots (`RdsSnapshot`, `RdsClusterSnapshot`), each with its insertion-ordered store (`OrderedDicts`) and ARN (`RdsBase`).
  - RDS marker pagination (`RdsResponses`), also used by the request front end (`AwsRequest`).
  - The CloudFront stores and the configuration defaults (`CloudFrontModels`, `CloudFrontResponses`).
  - The EC2 Elastic IP association state (`ElasticIp`).
  - The Route 53 request checks (`Route53Responses`).
  - The per-service parameter fix-ups (`Handlers`).
  - DynamoDB parameter validation, item AST, parser and validation rules (`DdbValidate`, `DdbAst`, `DdbParser`, `DdbRules`, `DdbErrors`, `DdbValidation`).
  - The RDS view models (`RdsViewModels`).
  - The Step Functions state-size quota (`Quotas`).

Where the source mutates dicts, lists or objects in place, the model uses Dafny classes whose methods carry `modifies` clauses. Each such method is proved against a pure specification function, and the properties are proved about that function. Pure code becomes functions and lemmas. Exceptions become `Failure` values named by their class. Foreign codecs become uninterpreted function parameters: base64, percent-encoding, timestamps, `xform_name`, `json.dumps` (with its default and its compact separators) and XML text. The order in which Python iterates a dict is a parameter too, since a `VDict` keeps no order. Random ids and the clock are parameters too.

Shared helpers are `Wrappers` (Option and Result), `Strs` (Python string operations: `lower`, `split`, `strip`, `replace` and integer text) and `Values` (a Python value).

## Model

| member | source | states |
|---|---|---|
| AwsRequest.HeaderGetMissing | moto/motocore/awsrequest.py:43 | the `HeadersDict` lookup finds nothing exactly when no header has the name, compared without regard to case |
| AwsRequest.HeaderGetLast | moto/motocore/awsrequest.py:43 | a header found holds the value of the last header with that name, in any case |
| AwsRequest.SplitOnce | moto/motocore/awsrequest.py:47 | `split(c, 1)` into two names fails (the `ValueError`) exactly when the separator is missing, and otherwise cuts at its first occurrence, the head holding no separator |
| AwsRequest.SplitOnceOf | moto/motocore/awsrequest.py:47 | cutting a separator-free head, the separator and a tail gives back the head and the tail |
| AwsRequest.OptionsDict | moto/motocore/awsrequest.py:52-53 | the options comprehension: every option is cut at its first `=`, later options override earlier ones, and an option without `=` raises `ValueError` |
| AwsRequest.OptionsDictFails | moto/motocore/awsrequest.py:53 | building the dictionary fails exactly when some option lacks `=` |
| AwsRequest.OptionsDictKeys | moto/motocore/awsrequest.py:53 | the dictionary's keys are exactly the names of the options |
| AwsRequest.OptionsLastWins | moto/motocore/awsrequest.py:53 | each key holds the value of the last option with that name |
| AwsRequest.NoAuthorizationNoContext | moto/motocore/awsrequest.py:43-45 | without an `Authorization` header, in any case, there is no context |
| AwsRequest.LastAuthorizationDecides | moto/motocore/awsrequest.py:43-57 | the context is the one the last `Authorization` header's value gives |
| AwsRequest.ContextOfValue | moto/motocore/awsrequest.py:43-57 | an empty value or one without a space gives no context; a context comes only from a value whose scheme lower-cases to `aws4-hmac-sha256`; the only error is the `ValueError` of a malformed option or credential |
| AwsRequest.OtherSchemeNoContext | moto/motocore/awsrequest.py:51 | a scheme other than `aws4-hmac-sha256`, whatever its case, gives no context |
| AwsRequest.CredentialScope | moto/motocore/awsrequest.py:47-57 | a value `<scheme> Credential=<key>/<date>/<region>/<service>/<terminator>` with the Signature Version 4 scheme in any case gives that region and service |
| AwsRequest.CredentialContext | moto/motocore/awsrequest.py:52-57 | options holding only a five-field credential give the credential's region and service |
| AwsRequest.SchemeNoSpace | moto/motocore/awsrequest.py:47-51 | a scheme that lower-cases to `aws4-hmac-sha256` holds no space, so the split stops right after it |
| AwsRequest.LoneOption | moto/motocore/awsrequest.py:53 | a lone `key=value` option gives a one-entry dictionary |
| AwsRequest.ProtocolOf | moto/motocore/awsrequest.py:76-83 | `query` for a content type starting with the form type, else `json` for one starting with `application/x-amz-json`, else none |
| AwsRequest.JsonProtocol | moto/motocore/awsrequest.py:81-82 | any `application/x-amz-json` content type, whatever its version suffix, selects the JSON protocol |
| AwsRequest.QueryProtocol | moto/motocore/awsrequest.py:79-80 | a form content type, with or without parameters such as a charset, selects the query protocol |
| AwsRequest.NoProtocol | moto/motocore/awsrequest.py:78-83 | without a content type neither protocol is chosen |
| AwsRequest.ConvertParamsToDict | moto/motocore/awsrequest.py:255-257 | the dictionary of the pairs `parse_qsl` yields holds exactly their keys |
| AwsRequest.ParamsLastWins | moto/motocore/awsrequest.py:257 | for duplicate keys the last pair's value wins |
| AwsRequest.ParsedOutcome | moto/motocore/awsrequest.py:121-177 | an exception becomes an error result with its status, 400 by default; success is 200; RDS operations that can paginate are paged, and a page error becomes an error result; a marker is recorded only when non-empty |
| AwsRequest.AgreesWithRds | moto/motocore/awsrequest.py:137-177 | for a pageable RDS operation the generic front end gives the answer the RDS handler's `call_action` gives whenever that one answers; an exception `call_action` lets escape, which is never an RDS error, the front end answers as an error result with its status or 400 |
| AwsRequest.AgreesWithRdsOnRdsErrors | moto/motocore/awsrequest.py:137-177 | when every exception counts as an RDS error the two front ends answer identically |
| AwsRequest.HeaderGet | moto/motocore/awsrequest.py:43 | no contract of its own: the case-insensitive lookup that HeaderGetMissing and HeaderGetLast characterise |
| AwsRequest.AwsContextFromHeaders | moto/motocore/awsrequest.py:36-57 | no contract of its own: the context, which NoAuthorizationNoContext, LastAuthorizationDecides and CredentialContext state |
| AwsRequest.GetProtocolFromHeaders | moto/motocore/awsrequest.py:76-83 | no contract of its own: ProtocolOf on the content type, whose cases JsonProtocol, QueryProtocol and NoProtocol state |
| CloudFrontModels.OrStr | moto/cloudfront/models.py:101 | `config.get(k) or d` for a string: the given value when it is non-empty, else the default |
| CloudFrontModels.OrInt | moto/cloudfront/models.py:103-105 | `config.get(k) or d` for a number: the given value when it is non-zero, else the default |
| CloudFrontModels.OrFalse | moto/cloudfront/models.py:124-125 | `config.get(k) or False`: true exactly when the value is given and true |
| CloudFrontModels.ListingOf | moto/cloudfront/models.py:150-154 | a counted listing of the given items, or of the default when the key is missing |
| CloudFrontModels.NewTrustedList | moto/cloudfront/models.py:62-73 | trusted signers and key groups hold the given items (none by default), their count, and are enabled exactly when the count is positive |
| CloudFrontModels.NewAllowedMethods | moto/cloudfront/models.py:76-85 | the methods default to HEAD and GET and the cached methods to GET and HEAD, each with its count |
| CloudFrontModels.NewForwardedValues | moto/cloudfront/models.py:53-59 | the query string flag defaults to False and the cookie forwarding to `none` |
| CloudFrontModels.NewDefaultCacheBehaviour | moto/cloudfront/models.py:88-109 | building fails with `KeyError` exactly when the target origin or the viewer protocol policy is missing, and keeps the target origin otherwise |
| CloudFrontModels.BehaviourDefaults | moto/cloudfront/models.py:88-109 | a built default behaviour takes each given value and otherwise the source's default for every field: `Compress` true, the TTLs 0, emptied strings `""`, two zero-count associations, and the cache policy `""` |
| CloudFrontModels.NewCacheBehaviour | moto/cloudfront/models.py:112-119 | a cache behaviour is the default behaviour plus a path pattern, with the origin request policy defaulting to `""` instead of None; the same `KeyError` cases |
| CloudFrontModels.NewCacheBehaviours | moto/cloudfront/models.py:220-222 | the list converts exactly when every behaviour does, one built behaviour per entry in order; else `KeyError` |
| CloudFrontModels.NewLogging | moto/cloudfront/models.py:122-127 | the flags default to False and the bucket and prefix to `""` when missing or empty |
| CloudFrontModels.NewViewerCertificate | moto/cloudfront/models.py:130-140 | the CloudFront default certificate unless given, `sni-only` and `TLSv1` unless given non-empty, and the source always `cloudfront` |
| CloudFrontModels.NewCustomOriginConfig | moto/cloudfront/models.py:143-154 | the ports and policy as given, keep-alive 5 and read timeout 30 unless given non-zero, and the SSL protocols with their count |
| CloudFrontModels.NewOrigin | moto/cloudfront/models.py:157-181 | an origin builds exactly when it has `Id` and `DomainName` and, as an S3 origin, its domain has the `amazonaws.com` ending and its config names an access identity; the checks come in the source's order: a missing `Id` or `DomainName` raises `KeyError`, an S3 origin outside `amazonaws.com` raises `DomainNameNotAnS3Bucket`, and an S3 origin inside it without `OriginAccessIdentity` raises `KeyError`; a built origin keeps its id and domain |
| CloudFrontModels.OriginDefaults | moto/cloudfront/models.py:157-181 | a built origin takes the `OriginShield` default `{"Enabled": False}`, 3 connection attempts and a 10 s timeout unless given, the S3 access identity when it is an S3 origin and `""` otherwise, its custom origin config exactly when one is given, and empty custom headers by default |
| CloudFrontModels.NewOrigins | moto/cloudfront/models.py:212 | the origins convert exactly when every one does, one built origin per entry in order; otherwise the first origin that does not build decides the error, `KeyError` or `DomainNameNotAnS3Bucket` |
| CloudFrontModels.OriginIds | moto/cloudfront/models.py:241-243 | the ids of the origins, one per origin in order |
| CloudFrontModels.NewGeoRestriction | moto/cloudfront/models.py:184-190 | restriction type `none` by default; the items counted, and replaced by None exactly when there are none |
| CloudFrontModels.NewAliases | moto/cloudfront/models.py:195-198 | missing aliases give `{"Quantity": 0}`; given aliases keep their items and have the quantity recounted from them |
| CloudFrontModels.NewCacheBehaviors | moto/cloudfront/models.py:217-222 | missing behaviours give quantity 0; a non-zero quantity converts every item (a `KeyError` when one fails); a zero quantity keeps the items as given |
| CloudFrontModels.NewRestrictions | moto/cloudfront/models.py:223-228 | missing restrictions give the default geo restriction; a geo restriction dict that holds any key, including keys the restriction does not read, is built; an empty one, or a missing one, is kept as given |
| CloudFrontModels.NewDistributionConfig | moto/cloudfront/models.py:193-247 | a config without `Origins`, or whose `Origins` has no `Items`, raises `KeyError`; an origin that does not build passes on the first such origin's error; `OriginDoesNotExist` means the default behaviour's target is not among the origin ids; the configuration builds exactly when the required keys are present, every origin and behaviour builds and the target is among the origin ids, and it is then consistent |
| CloudFrontModels.ConfigDefaults | moto/cloudfront/models.py:193-247 | a built configuration keeps the caller reference and every key it does not convert (such as `Comment` and `Enabled`) as given, and takes each part's default: `PriceClass_All`, `http2`, IPv6 enabled, an empty root object and web ACL, zero-count origin groups and error responses |
| CloudFrontModels.EmptyConfigRefused | moto/cloudfront/models.py:212 | the empty configuration is refused with `KeyError`, since it has no origins; a configuration holding only keys the source does not convert, or an `Origins` without `Items`, is not empty and is refused with `KeyError` too |
| CloudFrontModels.UnknownTargetRefused | moto/cloudfront/models.py:241-244 | a default behaviour aimed at an origin absent from the list is refused with `OriginDoesNotExist`, whatever else the configuration says |
| CloudFrontModels.NewDistribution | moto/cloudfront/models.py:250-269 | a distribution builds exactly when its configuration does and fails with the same error; it has the `arn:<partition>:cloudfront:<account>:distribution/<id>` ARN and a `<id>.cloudfront.net` domain |
| CloudFrontModels.DistributionLocation | moto/cloudfront/models.py:271-273 | no contract of its own: the distribution's published URL under the 2020-05-31 API path, which CreateDistributionWithTags and UpdateDistribution return |
| CloudFrontModels.Invalidation.Batch | moto/cloudfront/models.py:312-317 | the invalidation batch holds the paths with their count and the caller reference |
| CloudFrontModels.WithFinalNewline | moto/cloudfront/models.py:333-335 | the stored key always ends with a newline, added only when missing |
| CloudFrontModels.NewlineIdempotent | moto/cloudfront/models.py:333-335 | adding the final newline twice is adding it once |
| CloudFrontModels.Updated | moto/cloudfront/models.py:286-296 | after `update(config)` each field whose key the config holds takes the config's value and the others keep theirs |
| CloudFrontModels.InitialFields | moto/cloudfront/models.py:277-283 | a new control's fields are `config.get(k)` for its five keys |
| CloudFrontModels.UpdateEmpty | moto/cloudfront/models.py:286-296 | updating with an empty config changes nothing |
| CloudFrontModels.UpdateIdempotent | moto/cloudfront/models.py:286-296 | updating twice with the same config is updating once |
| CloudFrontModels.CreateIsUpdateOfBlank | moto/cloudfront/models.py:277-296 | a new control holds what updating a blank control with its config gives |
| CloudFrontModels.OriginAccessControl.constructor | moto/cloudfront/models.py:277-284 | a new control has the given id and etag and its initial fields |
| CloudFrontModels.OriginAccessControl.Update | moto/cloudfront/models.py:286-296 | the fields become the updated fields of the old ones |
| CloudFrontModels.Get | moto/cloudfront/models.py:279-283 | a lookup finds a value exactly when the key is present, and then it is the value under the key |
| CloudFrontModels.FirstWithCallerReference | moto/cloudfront/models.py:433-440 | none exactly when no stored distribution has that caller reference |
| CloudFrontModels.FirstWithCallerReferenceIsFirst | moto/cloudfront/models.py:433-440 | the match found is a stored distribution with that caller reference, and none before it in store order has it |
| CloudFrontModels.FindInvalidation | moto/cloudfront/models.py:485-491 | none exactly when no invalidation has that id; a match is one of the list with that id |
| CloudFrontModels.CloudFrontBackend.constructor | moto/cloudfront/models.py:366-373 | a new backend has empty stores and no tagging calls |
| CloudFrontModels.CloudFrontBackend.DistributionWithCallerReference | moto/cloudfront/models.py:433-440 | the scan returns the first distribution in store order with that caller reference |
| CloudFrontModels.CloudFrontBackend.Store | moto/cloudfront/models.py:394 | storing puts the distribution under its id |
| CloudFrontModels.CloudFrontBackend.CreateDistributionWithTags | moto/cloudfront/models.py:375-396 | a configuration error is returned as is; a caller reference already in use gives `DistributionAlreadyExists`; otherwise the distribution is stored under its id, returned with its location and etag, and its tags are handed to the tagging service; on failure nothing changes |
| CloudFrontModels.CloudFrontBackend.StoreTagged | moto/cloudfront/models.py:394-395 | the distribution is stored and its tags handed to the tagging service |
| CloudFrontModels.CloudFrontBackend.GetDistribution | moto/cloudfront/models.py:398-403 | the stored distribution and its etag when the id is known, else `NoSuchDistribution` |
| CloudFrontModels.CloudFrontBackend.GetDistributionConfig | moto/cloudfront/models.py:405-412 | the stored configuration and its etag when the id is known, else `NoSuchDistribution` |
| CloudFrontModels.CloudFrontBackend.DeleteDistribution | moto/cloudfront/models.py:414-423 | a missing IfMatch is refused with `InvalidIfMatchVersion` before the id is checked, then an unknown id gives `NoSuchDistribution`; success removes exactly that distribution |
| CloudFrontModels.IfMatchMissing | moto/cloudfront/models.py:419 | no contract of its own: Python's `not if_match`, a missing or empty value; DeleteDistribution and UpdateDistribution state the refusal it causes |
| CloudFrontModels.CloudFrontBackend.ListDistributions | moto/cloudfront/models.py:425-431 | the stored distributions, one entry per id and in the order the ids were first stored, holding exactly the stored distributions |
| CloudFrontModels.CloudFrontBackend.UpdateDistribution | moto/cloudfront/models.py:442-460 | the id is checked first (`NoSuchDistribution`), then IfMatch (`InvalidIfMatchVersion`), then an empty config dict (`NoSuchDistribution`; a dict holding any key, such as only `Comment` or an `Origins` without `Items`, is not empty), then the configuration is built and its error passed on; only that distribution's configuration changes and the store keeps its keys |
| CloudFrontModels.CloudFrontBackend.CreateInvalidation | moto/cloudfront/models.py:462-472 | an unknown distribution gives `NoSuchDistribution`; otherwise a `COMPLETED` invalidation is appended to the distribution's list |
| CloudFrontModels.CloudFrontBackend.ListInvalidations | moto/cloudfront/models.py:474-478 | the distribution's invalidations, `[]` when it has none |
| CloudFrontModels.CloudFrontBackend.GetInvalidation | moto/cloudfront/models.py:480-491 | `NoSuchDistribution` for an unknown distribution, else the invalidation with that id or `NoSuchInvalidation` |
| CloudFrontModels.CloudFrontBackend.TagResource | moto/cloudfront/models.py:496-497 | the tags are handed to the tagging service |
| CloudFrontModels.CloudFrontBackend.UntagResource | moto/cloudfront/models.py:499-500 | the tag keys are handed to the tagging service |
| CloudFrontModels.CloudFrontBackend.CreateOriginAccessControl | moto/cloudfront/models.py:502-507 | a fresh control with the config's initial fields is stored under its id |
| CloudFrontModels.CloudFrontBackend.GetOriginAccessControl | moto/cloudfront/models.py:509-512 | the stored control when the id is known, else `NoSuchOriginAccessControl` |
| CloudFrontModels.CloudFrontBackend.UpdateOriginAccessControl | moto/cloudfront/models.py:514-522 | `NoSuchOriginAccessControl` for an unknown id; otherwise that control's fields become their update by the config |
| CloudFrontModels.CloudFrontBackend.ListOriginAccessControls | moto/cloudfront/models.py:524-528 | the stored controls in insertion order |
| CloudFrontModels.CloudFrontBackend.DeleteOriginAccessControl | moto/cloudfront/models.py:530-534 | an unknown id raises `KeyError` and changes nothing; otherwise exactly that control is removed |
| CloudFrontModels.CloudFrontBackend.CreatePublicKey | moto/cloudfront/models.py:536-541 | the stored key's encoded text ends with a newline, and the key is stored under its id |
| CloudFrontModels.CloudFrontBackend.GetPublicKey | moto/cloudfront/models.py:543-544 | the stored key when the id is known, else `KeyError` |
| CloudFrontModels.CloudFrontBackend.DeletePublicKey | moto/cloudfront/models.py:546-550 | the key is gone afterwards, and an unknown id changes nothing |
| CloudFrontModels.CloudFrontBackend.ListPublicKeys | moto/cloudfront/models.py:552-556 | the stored keys in insertion order, each ending with a newline |
| CloudFrontModels.CloudFrontBackend.CreateKeyGroup | moto/cloudfront/models.py:558-561 | the key group is stored under its id |
| CloudFrontModels.CloudFrontBackend.GetKeyGroup | moto/cloudfront/models.py:563-564 | the stored group when the id is known, else `KeyError` |
| CloudFrontModels.CloudFrontBackend.ListKeyGroups | moto/cloudfront/models.py:566-570 | the stored groups in insertion order |
| CloudFrontResponses.GetAction | moto/cloudfront/responses.py:15-24 | CreateDistribution with `WithTags` in the query becomes CreateDistributionWithTags; with no action, the first `Operation` value maps `Tag` and `Untag` to TagResource and UntagResource; an empty `Operation` list raises `IndexError`; every other action is kept |
| CloudFrontResponses.GetActionChanges | moto/cloudfront/responses.py:18-23 | the action changes only from CreateDistribution or from none, and only to CreateDistributionWithTags, TagResource, UntagResource or none |
| CloudFrontResponses.OtherOperationUnmatched | moto/cloudfront/responses.py:21-23 | an `Operation` other than `Tag` or `Untag` leaves the action unset |
| CloudFrontResponses.ItemsOrNone | moto/cloudfront/responses.py:55 | `items if items else None`: none exactly for an empty list |
| CloudFrontResponses.DistributionList | moto/cloudfront/responses.py:47-58 | an empty marker, 100 max items, not truncated, the count of the distributions, and the items absent exactly when there are none |
| CloudFrontResponses.InvalidationList | moto/cloudfront/responses.py:98-109 | no marker, 100 max items, not truncated, the count, and the items absent exactly when there are none |
| CloudFrontResponses.OriginAccessControlList | moto/cloudfront/responses.py:160-170 | no marker, 100 max items, not truncated, the count, and the items always present |
| CloudFrontResponses.PublicKeyList | moto/cloudfront/responses.py:216-225 | 100 max items and no truncation flag, the count, and the items absent exactly when there are none |
| CloudFrontResponses.WrapKeyGroup | moto/cloudfront/responses.py:232 | a key group is answered under the single key `KeyGroup`, from which it reads back unchanged |
| CloudFrontResponses.WrapKeyGroups | moto/cloudfront/responses.py:249 | one `{"KeyGroup": g}` entry per group, in order |
| CloudFrontResponses.KeyGroupList | moto/cloudfront/responses.py:244-252 | only the count and the wrapped groups, one per group in order |
| CloudFrontResponses.UnwrapKeyGroups | moto/cloudfront/responses.py:249 | reading each entry's `KeyGroup` keeps one group per entry |
| CloudFrontResponses.KeyGroupListUnwraps | moto/cloudfront/responses.py:244-252 | every listed entry holds a `KeyGroup`, and unwrapping the list gives back exactly the groups in order |
| CloudFrontResponses.WrapUnwrap | moto/cloudfront/responses.py:249 | unwrapping the wrapped groups gives them back in order |
| CloudFrontResponses.CreateDistribution | moto/cloudfront/responses.py:26-33 | a created distribution is stored under its id and tagged with no tags; a failure changes nothing |
| CloudFrontResponses.CreateDistributionWithTags | moto/cloudfront/responses.py:35-45 | a created distribution is stored under its id and tagged with the request's tags, none by default; a failure changes nothing |
| DdbAst.Base | moto/dynamodb2/validation/ast.py:64-66 | every node class other than `Node` has `Node` or `ValueNode` as its base |
| DdbAst.AttributeKeyLayouts | moto/dynamodb2/validation/ast.py:63-103 | the attribute names of `Node`, the item node and the attribute nodes: the base's keys followed by the class's slots |
| DdbAst.ValueKeyLayouts | moto/dynamodb2/validation/ast.py:63-123 | the value nodes inherit `value` from `ValueNode`, so a number or string value node lists `value` twice and a list or set node has `value` then `values` |
| DdbAst.KeysExtendBase | moto/dynamodb2/validation/ast.py:63-68 | a class's keys start with its base's keys and end with its own slots |
| DdbAst.KindExamples | moto/dynamodb2/validation/ast.py:17-62 | the kind of `Node` is `ast`; the item and attribute classes have their class name without `Node`, in snake case |
| DdbAst.TypedAttributeKindExamples | moto/dynamodb2/validation/ast.py:57-62 | the number, string and binary attribute classes have their class name without `Node`, in snake case, as their kind |
| DdbAst.AttributeKindExamples | moto/dynamodb2/validation/ast.py:57-62 | the map attribute, attribute value and attribute name classes have their class name without `Node`, in snake case, as their kind |
| DdbAst.ValueKindExamples | moto/dynamodb2/validation/ast.py:57-62 | the value, number value and string value classes have their class name without `Node`, in snake case, as their kind |
| DdbAst.CollectionKindExamples | moto/dynamodb2/validation/ast.py:57-62 | the list value and string set value classes have their class name without `Node`, in snake case, as their kind |
| DdbAst.KindOfStem | moto/dynamodb2/validation/ast.py:57-62 | a class named with a stem followed by `Node` has the snake case of the stem as its kind |
| DdbAst.Construct | moto/dynamodb2/validation/ast.py:20-27 | a node has exactly its class's keys, each holding its keyword argument or None when it is not given |
| DdbAst.NodeEqualsIff | moto/dynamodb2/validation/ast.py:34-40 | two well-formed nodes are equal, by class and then key by key, exactly when they are the same value |
| DdbAst.ConstructEquals | moto/dynamodb2/validation/ast.py:20-40 | two constructed nodes are equal exactly when their classes agree and their keyword arguments agree on every key of the class |
| DdbAst.HashTuple | moto/dynamodb2/validation/ast.py:42-43 | the hash tuple holds one attribute per key, in key order |
| DdbAst.NodeHash | moto/dynamodb2/validation/ast.py:42-43 | hashing raises `TypeError` exactly when some attribute is a list, a dict, or a node holding one; otherwise what is hashed is the attribute tuple in key order |
| DdbAst.HashConsistent | moto/dynamodb2/validation/ast.py:34-43 | equal nodes hash the same tuple, and one raises exactly when the other does |
| DdbAst.NumberValueHash | moto/dynamodb2/validation/ast.py:106-111 | a number value node's hash tuple holds its value twice, since `value` is listed twice |
| DdbAst.CopiesEqual | moto/dynamodb2/validation/ast.py:45-54 | the shallow and the deep copy of a node are equal to it |
| DdbErrors.DeliverUnlimited | moto/dynamodb2/validation/validate.py:50-57 | without a limit every reported error is appended and validation never aborts |
| DdbErrors.DeliverLimited | moto/dynamodb2/validation/validate.py:50-57 | with a limit, the errors that fit in the room left are appended; if more come, the too-many message follows and validation aborts |
| DdbErrors.DeliverBound | moto/dynamodb2/validation/validate.py:50-57 | starting within the limit, a run that does not abort keeps the list within the limit, and an aborted run ends with exactly the limit's errors followed by the too-many message |
| DdbErrors.DeliverAppend | moto/dynamodb2/validation/validate.py:50-70 | reporting two batches in turn is reporting their concatenation, and nothing is reported after an abort |
| DdbErrors.DeliverCons | moto/dynamodb2/validation/validate.py:50-57 | one report: a full list gets the too-many message and aborts, otherwise the error is appended |
| DdbErrors.ErrorLog.constructor | moto/dynamodb2/validation/validate.py:45-48 | a new error log has the given limit and no errors |
| DdbErrors.ErrorLog.OnError | moto/dynamodb2/validation/validate.py:50-57 | `on_error` aborts exactly when a limit is set and already reached, appends the too-many message then and the error otherwise, as one step of the delivery function |
| DdbParser.Descriptor | moto/dynamodb2/validation/parser.py:24 | `(list(v.keys())[0], list(v.values())[0])` succeeds exactly for a non-empty dict and gives its first entry; an empty dict raises `IndexError` and any other value `AttributeError` |
| DdbParser.CheckDescriptors | moto/dynamodb2/validation/parser.py:23-25 | the comprehension succeeds exactly when every value is a non-empty dict, and otherwise fails with the error of the first value that is not |
| DdbParser.TypedClass | moto/dynamodb2/validation/parser.py:33-38 | type `N` gives a number attribute node, `S` a string attribute node, any other type a plain attribute node |
| DdbParser.StrValues | moto/dynamodb2/validation/parser.py:51 | for a list, one `str(i)` per element, in order |
| DdbParser.FlattenCheck | moto/dynamodb2/validation/parser.py:45 | the flattening can only succeed on a list, an empty dict or an empty string |
| DdbParser.Attributes | moto/dynamodb2/validation/parser.py:27-40 | one attribute node per entry of the dict |
| DdbParser.ParseItems | moto/dynamodb2/validation/parser.py:62-63 | one parsed value per list element |
| DdbParser.ParsePairs | moto/dynamodb2/validation/parser.py:47 | one parsed value per flattened pair |
| DdbParser.ItemParser | moto/dynamodb2/validation/parser.py:20-70 | `item_parser` succeeds exactly when `parse` does, and then gives a well-formed item node whose `attributes` hold the parsed item |
| DdbParser.AttributesShape | moto/dynamodb2/validation/parser.py:27-39 | each attribute node has the class its type selects and a name node holding its key |
| DdbParser.AttributesHead | moto/dynamodb2/validation/parser.py:27-39 | the first attribute node has the class its type selects and a name node holding its key |
| DdbParser.AttributesTail | moto/dynamodb2/validation/parser.py:27-39 | the attributes of a dict after its first entry are the attributes of the remaining entries |
| DdbParser.ItemAttributes | moto/dynamodb2/validation/parser.py:20-70 | a parsed item has one attribute per entry, each of the class its type selects and named by its key |
| DdbParser.MalformedDescriptor | moto/dynamodb2/validation/parser.py:24 | an attribute whose value is an empty dict fails with `IndexError`, one that is not a dict with `AttributeError` |
| DdbParser.FirstKeyOnly | moto/dynamodb2/validation/parser.py:24 | only the first key of an attribute's value is read; later keys are ignored |
| DdbParser.AttributeTypes | moto/dynamodb2/validation/parser.py:31-38 | a one-attribute item gives one node, of class map, number, string or plain attribute by its type |
| DdbParser.MapAttribute | moto/dynamodb2/validation/parser.py:31-32 | an `M` attribute is a map attribute node holding its name and the parse of its data |
| DdbParser.NumberValue | moto/dynamodb2/validation/parser.py:56-59 | an `N` descriptor gives a value node of type `N` holding the number's text unparsed |
| DdbParser.StringSetValue | moto/dynamodb2/validation/parser.py:49-52 | an `SS` descriptor of a list gives a string set node with `str` of each element, in order |
| DdbParser.ListValue | moto/dynamodb2/validation/parser.py:44-48 | an `L` descriptor flattens the entries of its dicts into pairs and gives a list node with the parse of each pair |
| DdbParser.PairsElementwise | moto/dynamodb2/validation/parser.py:47 | each element of the parsed pairs is the parse of that pair as a descriptor |
| DdbParser.ScalarValue | moto/dynamodb2/validation/parser.py:64-66 | anything that is neither a dict nor a list becomes a string value node holding it |
| DdbParser.ListElementwise | moto/dynamodb2/validation/parser.py:62-63 | a list parses exactly when each element does, and then element by element |
| DdbRules.NumberCheck | moto/dynamodb2/validation/rules.py:24-34 | the number check raises `TypeError` exactly for a value that is neither text nor a boolean, and otherwise reports the not-numeric message exactly when the text is not numeric, nothing else |
| DdbRules.Missing | moto/dynamodb2/validation/rules.py:51-52 | the missing keys are at most the key names |
| DdbRules.MissingMembers | moto/dynamodb2/validation/rules.py:51-52 | a key is reported missing exactly when it is a key name not among the item's attribute names |
| DdbRules.MissingCases | moto/dynamodb2/validation/rules.py:51-53 | nothing is missing exactly when every key is present, and every key is missing when none is present |
| DdbRules.MissingMessages | moto/dynamodb2/validation/rules.py:53 | one `Missing the key … in the item` message per missing key, in order |
| DdbRules.MissingStep | moto/dynamodb2/validation/rules.py:51-53 | the loop's step: a key reports its message exactly when it is absent, followed by what the remaining keys report |
| DdbRules.MismatchMessages | moto/dynamodb2/validation/rules.py:80-83 | one `Type mismatch for key …` message per mismatch, in order |
| DdbRules.Mismatches | moto/dynamodb2/validation/rules.py:75-79 | at most one mismatch per key definition |
| DdbRules.MismatchMembers | moto/dynamodb2/validation/rules.py:75-84 | a mismatch is reported exactly for a defined key whose recorded type differs from the expected one, with both types; an unrecorded key counts as its expected type |
| DdbRules.MismatchStep | moto/dynamodb2/validation/rules.py:75-84 | the loop's step: a definition reports its message exactly when its actual type differs, followed by what the remaining definitions report |
| DdbRules.TypeStep | moto/dynamodb2/validation/rules.py:86-94 | a visit event fails exactly when a map attribute is left with an empty stack (the `pop` of an empty list) |
| DdbRules.TypeRunKeepsBase | moto/dynamodb2/validation/rules.py:86-91 | a run of events that never pops below a stack prefix keeps that prefix and changes the stack's depth by the events' net depth |
| DdbRules.MapLevelRestores | moto/dynamodb2/validation/rules.py:86-91 | entering a map attribute, visiting a balanced run, and leaving it restores the recorded types and the stack |
| DdbRules.TypeRunAppend | moto/dynamodb2/validation/rules.py:86-94 | running two event sequences in turn is running their concatenation, a failure stopping the run |
| DdbRules.ValuesOfCorrectTypeRule.EnterNumberValue | moto/dynamodb2/validation/rules.py:24-34 | a value that is neither text nor boolean raises `TypeError` with no error logged; otherwise the number check's report is delivered to the error log |
| DdbRules.KeysMustBePresent.constructor | moto/dynamodb2/validation/rules.py:40-43 | the rule starts with the key schema's names and no attribute names |
| DdbRules.KeysMustBePresent.EnterAttributeName | moto/dynamodb2/validation/rules.py:55-57 | an attribute name is recorded exactly when it names a top-level attribute of the item |
| DdbRules.KeysMustBePresent.LeaveItem | moto/dynamodb2/validation/rules.py:50-53 | the missing-key messages are delivered to the error log in key order |
| DdbRules.KeysMustBeOfCorrectType.constructor | moto/dynamodb2/validation/rules.py:65-72 | the rule starts with the attribute definitions, no recorded types and an empty stack |
| DdbRules.KeysMustBeOfCorrectType.RecordType | moto/dynamodb2/validation/rules.py:93-99 | the attribute's type is recorded under its name, the stack unchanged, as one step of the type run |
| DdbRules.KeysMustBeOfCorrectType.EnterMapAttribute | moto/dynamodb2/validation/rules.py:86-88 | the recorded types are pushed and a fresh level starts |
| DdbRules.KeysMustBeOfCorrectType.LeaveMapAttribute | moto/dynamodb2/validation/rules.py:90-91 | the last pushed level is restored; an empty stack raises `IndexError` and changes nothing |
| DdbRules.KeysMustBeOfCorrectType.LeaveItem | moto/dynamodb2/validation/rules.py:74-84 | the type-mismatch messages are delivered to the error log in definition order |
| DdbValidate.RangeCheckMax | moto/dynamodb2/validate.py:66-74 | at most one report, made exactly when the shape has a `max` and the length exceeds it, carrying the parameter and the maximum |
| DdbValidate.EnumCheck | moto/dynamodb2/validate.py:77-83 | at most one report, made exactly when the shape has an enum that does not hold the value, carrying the value and the enum |
| DdbValidate.MemberShape | moto/dynamodb2/validate.py:227-234 | a member found is the shape of one of the structure's members |
| DdbValidate.MemberShapeFound | moto/dynamodb2/validate.py:227 | a parameter has a member shape exactly when its name is among the structure's member names |
| DdbValidate.MissingMembers | moto/dynamodb2/validate.py:219-222 | at most one missing-required-field report per required member |
| DdbValidate.UnknownMembers | moto/dynamodb2/validate.py:226-229 | at most one unknown-field report per parameter |
| DdbValidate.MapEntryPaths | moto/dynamodb2/validate.py:251-256 | a one-entry map is checked at exactly two paths: the key at `name (key: k)`, then the value at `name.k.member` |
| DdbValidate.WalkEntriesAppend | moto/dynamodb2/validate.py:254-256 | walking the entries of a concatenation gives the reports of each part in turn |
| DdbValidate.WalkEntriesSnoc | moto/dynamodb2/validate.py:254-256 | one more entry adds its key's reports then its value's reports at the end |
| DdbValidate.StringChecks | moto/dynamodb2/validate.py:238-242 | a string within its maximum and its enum gives no report; one over its maximum and within its enum gives exactly the length report |
| DdbValidate.CamelAll | moto/dynamodb2/validate.py:167 | one camel-cased segment per segment, in order |
| DdbValidate.GetNameEmpty | moto/dynamodb2/validate.py:163-164 | an empty name is reported as `input` |
| DdbValidate.GetNameSegment | moto/dynamodb2/validate.py:162-167 | a one-segment name, with or without its leading dot, is reported camel-cased |
| DdbValidate.GetNameSegments | moto/dynamodb2/validate.py:162-167 | the reported name's dot-separated segments are the camel-cased segments of the name, after `input` for an empty one and without a leading dot |
| DdbValidate.FormattableFormats | moto/dynamodb2/validate.py:105-160 | every report whose reason has its keywords renders without error |
| DdbValidate.MaxMessage | moto/dynamodb2/validate.py:154-158 | an `invalid max` report renders as the `Member must have length less than or equal to` message with its value, name and maximum |
| DdbValidate.WalkFormattable | moto/dynamodb2/validate.py:66-83 | with the maximum reported as `invalid max`, every report of the walk is renderable |
| DdbValidate.EntriesFormattable | moto/dynamodb2/validate.py:251-256 | every report of a map's entries is renderable |
| DdbValidate.KnownFormattable | moto/dynamodb2/validate.py:233-235 | every report of a structure's known members is renderable |
| DdbValidate.UnknownFormattable | moto/dynamodb2/validate.py:113-118 | every unknown-field report is renderable |
| DdbValidate.MissingFormattable | moto/dynamodb2/validate.py:108-112 | every missing-required-field report is renderable |
| DdbValidate.FormatAll | moto/dynamodb2/validate.py:102 | the messages render exactly when every report does, one message per report in order |
| DdbValidate.FormatOne | moto/dynamodb2/validate.py:102 | a single renderable report gives its one message |
| DdbValidate.HeaderNumber | moto/dynamodb2/validate.py:97-101 | the header says `1 validation error` for one report and `n validation errors` otherwise |
| DdbValidate.GenerateReport | moto/dynamodb2/validate.py:96-103 | the report succeeds exactly when every message renders, and is the header followed by the messages one per line |
| DdbValidate.Taken | moto/dynamodb2/validate.py:169-172 | at most the reports offered are recorded |
| DdbValidate.TakenFromEmpty | moto/dynamodb2/validate.py:169-172 | how many reports are kept before the abort, and that the walk aborts exactly when the count reaches the limit |
| DdbValidate.AtMostMax | moto/dynamodb2/validate.py:169-172 | from an empty list, at most the limit's count of reports is kept, all of them when fewer are made |
| DdbValidate.ValidationErrors.constructor | moto/dynamodb2/validate.py:87-89 | a new error list has the given limit and no reports |
| DdbValidate.ValidationErrors.Report | moto/dynamodb2/validate.py:169-172 | the report is appended, and the walk aborts exactly when the count reaches the limit |
| DdbValidate.ValidationErrors.ReportEach | moto/dynamodb2/validate.py:58-61 | the walk's reports are appended one by one until the abort, which happens exactly as the count predicts |
| DdbValidate.ValidateParameters | moto/dynamodb2/validate.py:31-63 | nothing without an input shape; otherwise the report of the kept reports, none when there are none; with the maximum reported as `invalid max` it never fails |
| DdbValidate.ValidationReportOfKept | moto/dynamodb2/validate.py:58-63 | the result is none when no report is kept and otherwise the generated report of the kept ones |
| DdbValidate.ReportsFormat | moto/dynamodb2/validate.py:58-63 | the kept reports of the corrected walk always render |
| DdbValidate.LongNameWalk | moto/dynamodb2/validate.py:238-241 | walking `{"TableName": "abcd"}` against a three-character maximum records exactly one report |
| DdbValidate.OverlongStringRaises | moto/dynamodb2/validate.py:137-143 | as written, that report has the reason `invalid length` and no `valid_range`, so rendering it raises `KeyError` |
| DdbValidate.LengthWithoutRangeRaises | moto/dynamodb2/validate.py:137-139 | an `invalid length` report that lacks `valid_range` cannot be formatted: `KeyError` |
| DdbValidate.LongNameMessage | moto/dynamodb2/validate.py:154-158 | the corrected report renders as the maximum-length message for `tableName` |
| DdbValidate.OverlongStringReported | moto/dynamodb2/validate.py:31-63 | corrected, validating the overlong name gives the one-error header followed by the maximum-length message |
| DdbValidate.Walk | moto/dynamodb2/validate.py:238-257 | no contract of its own: the shape walk, whose reports WalkFormattable keeps formattable and StringChecks and LongNameWalk state |
| DdbValidate.FormatError | moto/dynamodb2/validate.py:105-160 | no contract of its own: the message of one report, which FormattableFormats, MaxMessage and LongNameMessage state |
| DdbValidation.InitialStates | moto/dynamodb2/validation/validate.py:63 | `[rule(context) for rule in rules]`: one fresh rule state per rule, in order |
| DdbValidation.HandleUnlimited | moto/dynamodb2/validation/validate.py:50-57 | without a limit a rule's callback never aborts, and it only appends errors |
| DdbValidation.HandleLimited | moto/dynamodb2/validation/validate.py:50-57 | under a limit the errors so far fit, a callback does what it does without a limit until the list overflows, and then aborts with the errors cut at the limit and the too-many message |
| DdbValidation.DispatchUnlimited | moto/dynamodb2/validation/validate.py:63-67 | without a limit the parallel dispatch of one event never aborts and only appends errors |
| DdbValidation.DispatchLimited | moto/dynamodb2/validation/validate.py:50-67 | under a limit, the dispatch of one event gives the unlimited errors when they fit, and otherwise aborts with them cut at the limit |
| DdbValidation.RunUnlimited | moto/dynamodb2/validation/validate.py:66-70 | without a limit the visit's errors only grow |
| DdbValidation.RunLimited | moto/dynamodb2/validation/validate.py:50-70 | under a limit, the visit ends with the unlimited visit's errors cut at the limit |
| DdbValidation.LimitKeepsFirst | moto/dynamodb2/validation/validate.py:11-70 | with `max_errors = n`, `validate` returns the first errors the unlimited validation reports, cut at `n` and followed by the too-many message when more came |
| DdbValidation.HandleBound | moto/dynamodb2/validation/validate.py:50-57 | a callback that goes on keeps the errors within the limit; one that aborts leaves exactly the limit's errors followed by the too-many message |
| DdbValidation.DispatchBound | moto/dynamodb2/validation/validate.py:50-67 | the same bound for the dispatch of one event to all rules |
| DdbValidation.RunBound | moto/dynamodb2/validation/validate.py:50-70 | a whole visit keeps at most the limit's errors plus the too-many message, which comes last |
| DdbValidation.AtMostLimit | moto/dynamodb2/validation/validate.py:11-70 | with `max_errors = n`, at most `n` errors are returned, and a list one longer ends with the too-many message |
| DdbValidation.LeaveItemOrder | moto/dynamodb2/validation/validate.py:63-67 | leaving the item with the item rules reports the missing keys first and then the type mismatches, the rule order |
| DdbValidation.ItemRulesRecord | moto/dynamodb2/validation/validate.py:63-67 | an attribute or attribute-name event reports nothing and only records the name or the type |
| DdbValidation.SongKeys | tests/test_dynamodb2/test_validation.py:21-25 | the item `{"song": …}` misses the hash key `artist` and has no type mismatch |
| DdbValidation.HashKeyMissing | tests/test_dynamodb2/test_validation.py:21-25 | validating that item reports exactly `Missing the key artist in the item` |
| DdbValidation.Visit | moto/dynamodb2/validation/validate.py:59-67 | one rule object's callback for an event changes its state and the error log as the pure callback says, and reports whether the visit goes on, aborts or raises |
| DdbValidation.NewVisitor | moto/dynamodb2/validation/validate.py:63 | a fresh rule object in its initial state |
| DdbValidation.NewVisitors | moto/dynamodb2/validation/validate.py:63 | one fresh, separate rule object per rule, each in its initial state |
| DdbValidation.Validate | moto/dynamodb2/validation/validate.py:11-70 | a limit that is not an int raises `TypeError`; otherwise the rule objects visit the events in parallel and the errors are those of the pure validation |
| DdbValidation.EventStep | moto/dynamodb2/validation/validate.py:66-69 | visiting one event leaves the rest of the run equal to the run from the new states, or ends it as the run does |
| DdbValidation.DispatchEvent | moto/dynamodb2/validation/validate.py:63-67 | the callbacks of all rule objects for one event, in order, as the pure dispatch describes |
| DdbValidation.VisitAt | moto/dynamodb2/validation/validate.py:63-67 | the callback of one rule object changes its own state only |
| DdbValidation.Handle | moto/dynamodb2/validation/validate.py:50-57 | no contract of its own: one rule's callback, which HandleUnlimited, HandleLimited and HandleBound state |
| DdbValidation.Dispatch | moto/dynamodb2/validation/validate.py:63-67 | no contract of its own: the parallel visitor step, which DispatchUnlimited, DispatchLimited and DispatchBound state |
| DdbValidation.Run | moto/dynamodb2/validation/validate.py:66-70 | no contract of its own: the visit, which RunUnlimited, RunLimited, RunBound and LimitKeepsFirst state |
| DdbValidation.Validation | moto/dynamodb2/validation/validate.py:37-70 | no contract of its own: the validation defined as a value, which the Validate method computes and AtMostLimit bounds |
| ElasticIp.NormalDomain | moto/ec2/models/elastic_ip_addresses.py:114-115 | the domain is always `standard` or `vpc`, and a domain that already is one of these is kept |
| ElasticIp.ElasticAddress.constructor | moto/ec2/models/elastic_ip_addresses.py:19-31 | the public IP is the given address when one is given, else the random one; only a `vpc` address gets an allocation id, which is also its `id`; the address starts with no instance, interface or association |
| ElasticIp.ElasticAddress.Associate | moto/ec2/models/elastic_ip_addresses.py:180-189 | the instance is recorded, the interface is the given one or the instance's primary one, that interface gets the public IP, and only a `vpc` address gets the new association id; nothing else changes, and the primary interface is untouched when another interface is given |
| ElasticIp.ElasticAddress.Disassociate | moto/ec2/models/elastic_ip_addresses.py:220-227 | the address loses its instance, interface and association id, and its former interface loses its public IP |
| ElasticIp.RemovedAt | moto/ec2/models/elastic_ip_addresses.py:240 | `list.remove` of an entry listed once: the list loses exactly that entry, one shorter, every other entry kept at its place in order (index `i` before the entry, `i + 1` after it), still without repeats |
| ElasticIp.WithIpIn | moto/ec2/models/elastic_ip_addresses.py:124-126 | exactly the addresses whose public IP was asked for, in list order |
| ElasticIp.WithIpInFirst | moto/ec2/models/elastic_ip_addresses.py:124-126 | the first address returned is the first listed address whose IP was asked for |
| ElasticIp.WithIpInAppend | moto/ec2/models/elastic_ip_addresses.py:124-126 | narrowing by IP keeps list order: the narrowing of a concatenation is the narrowing of each part, in turn |
| ElasticIp.WithAllocationIn | moto/ec2/models/elastic_ip_addresses.py:135-139 | exactly the addresses whose allocation id was asked for, a listed first entry that matches coming first |
| ElasticIp.WithAllocationInAppend | moto/ec2/models/elastic_ip_addresses.py:135-139 | narrowing by allocation id keeps list order: the narrowing of a concatenation is the narrowing of each part, in turn |
| ElasticIp.WithAssociationIn | moto/ec2/models/elastic_ip_addresses.py:148-152 | exactly the addresses whose association id was asked for, a listed first entry that matches coming first |
| ElasticIp.WithAssociationInAppend | moto/ec2/models/elastic_ip_addresses.py:148-152 | narrowing by association id keeps list order: the narrowing of a concatenation is the narrowing of each part, in turn |
| ElasticIp.Narrowed | moto/ec2/models/elastic_ip_addresses.py:196-206 | the single-pass reference narrowing of `describe_addresses`: exactly the listed addresses an allocation-id list (when not empty) and an IP list (when not empty) both admit |
| ElasticIp.NarrowedSteps | moto/ec2/models/elastic_ip_addresses.py:196-206 | narrowing by allocation id and then by IP, each only when its list is not empty, gives the single-pass narrowing, order included |
| ElasticIp.Checked | moto/ec2/models/elastic_ip_addresses.py:129-132 | a lookup fails exactly when nothing matched or fewer addresses matched than ids were asked for, and otherwise returns the matches |
| ElasticIp.First | moto/ec2/models/elastic_ip_addresses.py:173 | `eips[0]`: the first match, and an `IndexError` when nothing was looked up |
| ElasticIp.ChosenEni | moto/ec2/models/elastic_ip_addresses.py:181-185 | the given interface, else the instance's primary interface, else none |
| ElasticIp.MayAssociate | moto/ec2/models/elastic_ip_addresses.py:175-180 | the association rule: a new or same instance, a new or same interface, or `reassociate` (its cases are proved by `MayAssociateCases`) |
| ElasticIp.MayAssociateCases | moto/ec2/models/elastic_ip_addresses.py:175-180 | a free address may always be associated with an instance or an interface; one held by another instance and another interface, or asked for with neither, may be associated exactly when `reassociate` is set |
| ElasticIp.ElasticAddressBackend.constructor | moto/ec2/models/elastic_ip_addresses.py:110-111 | the backend starts with no addresses and is valid |
| ElasticIp.ElasticAddressBackend.AllocateAddress | moto/ec2/models/elastic_ip_addresses.py:113-121 | a fresh address with the normalised domain is appended to the list, the list stays without repeats, and no other address changes |
| ElasticIp.ElasticAddressBackend.AddressByIp | moto/ec2/models/elastic_ip_addresses.py:123-132 | the addresses with the asked IPs, in list order, or `InvalidAddressError` when there are none or fewer than asked for |
| ElasticIp.ElasticAddressBackend.AddressByAllocation | moto/ec2/models/elastic_ip_addresses.py:134-145 | the addresses with the asked allocation ids, or `InvalidAllocationIdError` when there are none or fewer than asked for |
| ElasticIp.ElasticAddressBackend.AddressByAssociation | moto/ec2/models/elastic_ip_addresses.py:147-158 | the addresses with the asked association ids, or `InvalidAssociationIdError` when there are none or fewer than asked for |
| ElasticIp.ElasticAddressBackend.ByIpOrAllocation | moto/ec2/models/elastic_ip_addresses.py:168-173 | the address is looked up by IP when one is given, else by allocation id, and it is `eips[0]` of nothing (an `IndexError`) when neither is given |
| ElasticIp.ElasticAddressBackend.ByIpOrAssociation | moto/ec2/models/elastic_ip_addresses.py:213-218 | the address is looked up by IP when one is given, else by association id, else `IndexError` |
| ElasticIp.ElasticAddressBackend.FoundByOwnIp | moto/ec2/models/elastic_ip_addresses.py:123-132 | a listed address is found by its own IP, and the lookup returns the first listed address with that IP |
| ElasticIp.ElasticAddressBackend.FirstByIp | moto/ec2/models/elastic_ip_addresses.py:123-132 | a successful lookup by one IP yields the first listed address with that IP |
| ElasticIp.ElasticAddressBackend.FoundByOwnAllocation | moto/ec2/models/elastic_ip_addresses.py:134-145 | a listed `vpc` address is found by its own allocation id |
| ElasticIp.ElasticAddressBackend.AssociateAddress | moto/ec2/models/elastic_ip_addresses.py:160-193 | a failed lookup changes nothing; an address the association rule refuses raises `ResourceAlreadyAssociatedError` and changes nothing; otherwise the found address records the instance and the chosen interface, that interface gets the address's IP, a `vpc` address gets the new association id, no other address changes, and an instance's primary interface is left alone when another interface is given |
| ElasticIp.ElasticAddressBackend.DisassociateAddress | moto/ec2/models/elastic_ip_addresses.py:212-228 | the found address forgets its instance, interface and association id, and its interface loses its public IP; a failed lookup changes nothing |
| ElasticIp.ElasticAddressBackend.ReleaseAddress | moto/ec2/models/elastic_ip_addresses.py:230-241 | a failed lookup changes nothing; otherwise the first listed address with the found address's IP (the found one when no other address shares its IP) is disassociated and its interface loses its public IP, the found address loses its allocation id and leaves the list, the others keep their order, and no other address changes |
| ElasticIp.ElasticAddressBackend.ReleaseFound | moto/ec2/models/elastic_ip_addresses.py:238-241 | once the address is found: the address that disassociating by its IP finds is disassociated and its interface loses its public IP, the found address loses its allocation id and leaves the list, the others keep their order, and no other address changes |
| ElasticIp.ElasticAddressBackend.ReleaseAt | moto/ec2/models/elastic_ip_addresses.py:239-240 | the address loses its allocation id and leaves the list, the others keep their order, its other fields are unchanged, and the backend stays well formed |
| ElasticIp.ElasticAddressBackend.Kept | moto/ec2/models/elastic_ip_addresses.py:196-206 | a listed address both narrowings of `describe_addresses` admit |
| ElasticIp.ElasticAddressBackend.DescribeAddresses | moto/ec2/models/elastic_ip_addresses.py:195-210 | fewer allocation matches than ids asked for raise `InvalidAllocationIdError`; otherwise fewer addresses passing both narrowings than IPs asked for raise `InvalidAddressError`; otherwise the result is the single-pass narrowing, in list order, holding exactly the kept addresses, and with neither list given the whole list |
| Handlers.Moved | moto/motocore/handlers.py:181 | `params[to] = params.pop(from)`: the key set loses `from` and gains `to`, `to` holds the moved value and every other key keeps its value |
| Handlers.MovedBack | moto/motocore/handlers.py:181 | moving a key to a fresh name and back restores the original dictionary |
| Handlers.MovedOr | moto/motocore/handlers.py:163-165 | `params.pop(from, default)` stored under `to`: `to` holds the old value or the default, other keys are kept |
| Handlers.ParsedRequest.constructor | moto/motocore/handlers.py:37-40 | a parsed request holds the given action and keyword arguments |
| Handlers.ResultDict.constructor | moto/motocore/handlers.py:55-58 | a result dictionary holds the given fields |
| Handlers.OutgoingRequest.constructor | moto/motocore/handlers.py:31-34 | an outgoing request holds the given headers |
| Handlers.InjectApiVersionHeader | moto/motocore/handlers.py:31-34 | an endpoint-discovery operation gets the `x-amz-api-version` header set to the API version; any other request is left unchanged |
| Handlers.RunInstancesKwargs | moto/motocore/handlers.py:40-43 | `count` becomes `min_count` (default 1), `security_group_names` becomes `security_group` (default `[]`), `user_data` is kept or set to None, and every other argument is kept |
| Handlers.RunInstancesIdempotent | moto/motocore/handlers.py:40-43 | applying the RunInstances rewrite twice gives the same arguments as applying it once |
| Handlers.FixEc2Request | moto/motocore/handlers.py:37-52 | RunInstances becomes the `add_instances` action with rewritten arguments; CreateSubnet without an availability zone gets the chosen zone, and one with a zone is left unchanged; any other operation is left unchanged |
| Handlers.Copied | moto/motocore/handlers.py:59 | `value.to = value.from` adds `to` with the value of `from` and keeps every other attribute |
| Handlers.CopiedIdempotent | moto/motocore/handlers.py:59 | copying an attribute twice gives the same object as copying it once |
| Handlers.FirstWithout | moto/motocore/handlers.py:61-62 | the index of the first item without the attribute: every item before it has the attribute, and the item at it lacks it |
| Handlers.CopiedUntilMissing | moto/motocore/handlers.py:61-62 | the loop copies the attribute on every item before the first one that lacks it, and leaves that item and all later ones unchanged |
| Handlers.CopyEach | moto/motocore/handlers.py:61-62 | the loop's items are the copied-until-missing list, and it raises AttributeError exactly when some item lacks the attribute |
| Handlers.RunInstancesResult | moto/motocore/handlers.py:58-62 | a reservation without `id` raises AttributeError unchanged; one without `instances` raises AttributeError after gaining `reservation_id`; instances that are not a list raise TypeError after `instances_set` is set; given a list, the instances before the first one without `id` gain their `instance_id` and the rest stay as they were, in the one list both `instances` and `instances_set` hold, and that first instance raises AttributeError; the rewrite succeeds exactly when the reservation has `id` and a list of instances that all have `id`; the only errors are AttributeError and TypeError |
| Handlers.FixRunInstancesResult | moto/motocore/handlers.py:57-62 | the result dictionary's `result` becomes the rewritten reservation and the outcome is that of the rewrite |
| Handlers.FixEc2Result | moto/motocore/handlers.py:55-72 | per operation: RunInstances rewrites the reservation; DescribeAvailabilityZones copies `name` to `zone_name` on each zone (TypeError when the result is not a list, AttributeError at the first zone without a name); CreateVpc and CreateSubnet copy `id` to `vpc_id` or `subnet_id`; a missing `result` raises KeyError; any other operation changes nothing |
| Handlers.FixElasticBeanstalkResult | moto/motocore/handlers.py:75-77 | CreateEnvironment pops `result` and returns it, raising KeyError when it is missing; any other operation changes nothing |
| Handlers.BootstrapAction | moto/motocore/handlers.py:88-92 | an action converts exactly when it has a name and a script action that is a dictionary, and then gives its name, the script's path (default `""`) and its arguments (default `[]`) |
| Handlers.ConvertActionsAll | moto/motocore/handlers.py:87-93 | when no action fails, the converted list has one entry per action and each entry is that action's conversion |
| Handlers.ConvertActionsFails | moto/motocore/handlers.py:87-93 | once a prefix of the actions fails, the whole loop stops with that prefix's entries and error |
| Handlers.JobFlowBase | moto/motocore/handlers.py:82-86 | `instances` is moved to `instance_attrs`, `steps` defaults to `[]`, `bootstrap_actions` starts empty, and every other argument is kept |
| Handlers.FixEmrRequest | moto/motocore/handlers.py:80-93 | RunJobFlow without `instances` raises KeyError unchanged; otherwise the arguments are rewritten and the bootstrap actions converted, stopping at the first one that fails; any other operation changes nothing |
| Handlers.RebuildBootstrapActions | moto/motocore/handlers.py:87-93 | the loop appends the conversion of each action in turn and reports the first failure |
| Handlers.WithNoneDefaults | moto/motocore/handlers.py:110-112 | every existing argument keeps its value, every listed name is present, a listed name that was missing is None, and no other key is added |
| Handlers.WithNoneDefaultsIdempotent | moto/motocore/handlers.py:110-112 | filling the defaults twice gives the same arguments as filling them once |
| Handlers.FillNone | moto/motocore/handlers.py:110-112 | the loop leaves the arguments equal to the filled-default map |
| Handlers.FixKmsRequest | moto/motocore/handlers.py:100-112 | CreateKey gets None for each of its five missing optional arguments; any other operation changes nothing |
| Handlers.FixKmsResult | moto/motocore/handlers.py:115-119 | CreateKey copies the key's `id` to `key_id`, raising KeyError without a result and AttributeError without an `id`; any other operation changes nothing |
| Handlers.FixPollyRequest | moto/motocore/handlers.py:122-128 | DescribeVoices gets None for a missing `language_code` and `next_token`; any other operation changes nothing |
| Handlers.RenamedKeys | moto/motocore/handlers.py:136-138 | every key appears under its transformed name with its value, and every key of the result is the transformed name of some original key |
| Handlers.FixPollyResult | moto/motocore/handlers.py:131-140 | DescribeVoices succeeds exactly on a list of dictionaries and then replaces each voice by the dictionary with its keys renamed, in order; a missing result raises KeyError, a result that is not a list TypeError, a voice that is not a dictionary AttributeError, each leaving the result as it was; any other operation changes nothing |
| Handlers.RedshiftRegion | moto/motocore/handlers.py:145-153 | the four create operations get `region_name` set to the request's region |
| Handlers.RedshiftCreateCluster | moto/motocore/handlers.py:154-156 | CreateCluster moves `iam_roles` to `iam_roles_arn` |
| Handlers.RedshiftParameterGroup | moto/motocore/handlers.py:157-161 | CreateClusterParameterGroup moves `parameter_group_name` to `cluster_parameter_group_name` and `parameter_group_family` to `group_family`, each when present |
| Handlers.RedshiftDeleteCluster | moto/motocore/handlers.py:162-163 | DeleteCluster moves `skip_final_cluster_snapshot` to `skip_final_snapshot`, default False |
| Handlers.RedshiftSubnetGroups | moto/motocore/handlers.py:164-165 | DescribeClusterSubnetGroups moves `cluster_subnet_group_name` to `subnet_identifier`, default None |
| Handlers.RedshiftOtherOps | moto/motocore/handlers.py:143-171 | any other operation leaves the arguments as they are |
| Handlers.RedshiftTagsCheck | moto/motocore/handlers.py:166-171 | CreateTags succeeds exactly when `tags` is a list of dictionaries, and raises KeyError when `tags` is missing |
| Handlers.FixRedshiftRequest | moto/motocore/handlers.py:143-171 | the arguments become the rewritten map for the operation, the action is kept, and CreateTags reports the outcome of the tag check |
| Handlers.FixSqsRequest | moto/motocore/handlers.py:178-181 | CreateQueue moves `queue_name` to `name`, raising KeyError when it is missing; any other operation changes nothing |
| Handlers.TagsDict | moto/motocore/handlers.py:192 | the comprehension succeeds exactly when every tag is a dictionary with a string `key` and a `value`; every tag's key is in the result and every key of the result comes from some tag |
| Handlers.TagsDictLastWins | moto/motocore/handlers.py:192 | a key holds the value of the last tag that carries it |
| Handlers.FixSsmRequest | moto/motocore/handlers.py:189-195 | AddTagsToResource turns the tag list into a key-to-value dictionary (KeyError, TypeError or the comprehension's error otherwise); RemoveTagsFromResource moves `tag_keys` to `keys`; any other operation changes nothing |
| Handlers.TagEntry | moto/motocore/handlers.py:201 | a `{"key": k, "value": v}` entry is a well-formed tag with that key and value |
| Handlers.TagEntries | moto/motocore/handlers.py:201 | one entry per key, in the given order, each holding that key's value |
| Handlers.TagEntriesRoundTrip | moto/motocore/handlers.py:189-202 | turning the tag list built from a dictionary back into a dictionary gives the dictionary restricted to the listed keys |
| Handlers.TagsDictSnoc | moto/motocore/handlers.py:192 | appending a tag updates that tag's key in the dictionary and nothing else |
| Handlers.FixSsmResult | moto/motocore/handlers.py:198-202 | ListTagsForResource replaces the tag dictionary by `{"tag_list": …}` with one entry per key, and that list turns back into the same dictionary; a missing result raises KeyError and a result that is not a dictionary AttributeError; any other operation changes nothing |
| Handlers.ConvertActions | moto/motocore/handlers.py:85-93 | no contract of its own: the bootstrap-action conversion, which ConvertActionsAll and ConvertActionsFails state |
| Handlers.RewritesEc2Result | moto/motocore/handlers.py:55-72 | no contract of its own: the four EC2 operations whose results FixEc2Result rewrites |
| Handlers.RedshiftKwargs | moto/motocore/handlers.py:143-171 | no contract of its own: the Redshift argument renames, which RedshiftRegion, RedshiftCreateCluster, RedshiftParameterGroup, RedshiftDeleteCluster, RedshiftSubnetGroups and RedshiftOtherOps state |
| Handlers.RedshiftRenames | moto/motocore/handlers.py:154-169 | no contract of its own: the renames after the region is set, stated by the same lemmas |
| JsonDecode.ObjectGet | moto/core/parse.py:449 | a key is found exactly when some member carries it, and the value found is that of its last occurrence (a JSON object read into a dict keeps the last duplicate) |
| JsonDecode.MemberInput | moto/core/parse.py:448-450 | the raw input of a member, looked up under its serialised name, is never JSON null: a null counts as absent |
| JsonDecode.HandleScalar | moto/core/parse.py:697-702 | in RestJSON a JSON-value header string goes through the header decoder (base64, UTF-8, `json.loads`), and a non-string such header raises TypeError; every other string scalar is the JSON value as it stands |
| JsonDecode.ListInput | moto/core/parse.py:683-688 | for the REST-JSON flavour, a list bound to a header and given as a string is split on commas and each part stripped, one element per part |
| JsonDecode.StrippedParts | moto/core/parse.py:687 | one stripped string per part, in order |
| JsonDecode.Chars | moto/core/parse.py:245 | iterating a string yields one single-character string per character, in order |
| JsonDecode.ParseBodyAsJson | moto/core/parse.py:479-492 | an empty body reads as the empty object; a body the decoder refuses reads as an object whose only member "message" holds the body; otherwise the decoder's result |
| JsonDecode.DoParse | moto/core/parse.py:504-508 | without an input shape the parameters are the empty dict |
| JsonDecode.Parse | moto/core/parse.py:223-231 | a parsed request names the action found from the target header, and that action is an operation of the service; an unknown action is refused with OperationNotFoundError |
| JsonDecode.ActionOfTarget | moto/core/parse.py:496-502 | with a target prefix, a header "prefix.Op" gives the action Op; no header gives UnknownOperation; without a prefix the header is the action unchanged |
| JsonDecode.GatherPresentCollects | moto/core/parse.py:446-453 | gathering the decoded members keeps the invariant: a name is present exactly for the members that had a value, holding that value |
| JsonDecode.DecodeMembersGathers | moto/core/parse.py:446-453 | when every present member decodes, the member loop succeeds with exactly the gathered present members |
| JsonDecode.MemberNames | moto/core/parse.py:446 | the member names, one per member, in order |
| JsonDecode.GatherPresentFields | moto/core/parse.py:446-454 | the structure's dict holds a member exactly when its input was present, its value is that member's decoding, and it holds nothing but member names |
| JsonDecode.StructureDecoding | moto/core/parse.py:435-454 | a null structure decodes to None; an object decodes to the dict of its present, decoded members |
| JsonDecode.DecodeMembersAbsent | moto/core/parse.py:446-453 | when no remaining member has input, the member loop adds nothing |
| JsonDecode.EmptyBodyDecoding | moto/core/parse.py:479-481 | an empty body with a structure input shape decodes to the empty dict |
| JsonDecode.DecodeItemsElementwise | moto/core/parse.py:240-247 | when every item decodes, the list holds one decoded value per item, in order |
| JsonDecode.DecodeEntriesKeys | moto/core/parse.py:456-464 | for a string key shape that is not a JSON-value header, the map loop succeeds when every value decodes; its keys are the earlier keys plus the entry keys, each entry key holding the decoding of its last entry, the other earlier keys unchanged |
| JsonDecode.MapDecoding | moto/core/parse.py:456-464 | for a string key shape that is not a JSON-value header, a map decodes to a dict whose keys are exactly the JSON object's keys, each holding the decoding of the key's last value |
| JsonDecode.RestBooleanDecoding | moto/core/parse.py:706-713 | REST-JSON: a JSON boolean is kept, a string is true exactly when lower-cased it is "true", anything else is undefined; plain JSON keeps the loaded value |
| JsonDecode.HandleFloat | moto/core/parse.py:472-476 | a number, a boolean or a string gives a float, and null, an array or an object raise TypeError; a JSON number keeps its text |
| JsonDecode.Keys | moto/core/parse.py:245 | iterating an object yields each of its keys as a string, every key once, and nothing else |
| JsonDecode.ParseShape | moto/core/parse.py:236-238 | no contract of its own: the dispatch on the shape's type that defines the JSON decoding; StructureDecoding, DecodeItemsElementwise, MapDecoding and HandleScalar state what it yields |
| JsonDecode.HandleStructure | moto/core/parse.py:435-454 | no contract of its own: the structure decoding, whose properties StructureDecoding and GatherPresentFields state |
| JsonDecode.HandleList | moto/core/parse.py:240-247 | no contract of its own: each item decoded with the member shape, which DecodeItemsElementwise and ListInput state |
| JsonDecode.HandleMap | moto/core/parse.py:456-464 | no contract of its own: the map decoding, whose properties DecodeEntriesKeys and MapDecoding state |
| OldParsers.DefaultHandle | moto/motocore/parsers.py:381-383 | the body decoder returns the value under the key, else the metadata default, else None, and never fails; the query-string decoder (parsers.py:168-170) raises TypeError for a missing key, and for a list or a string gives its first element, raising IndexError when it is empty |
| OldParsers.ToInt | moto/motocore/parsers.py:377-379 | an integer passes unchanged; a string converts exactly when it is an integer literal; None, lists and dicts raise TypeError |
| OldParsers.StructureKeys | moto/motocore/parsers.py:325-341 | a decoded structure holds exactly the converted names of the members that are present (some key starts with their prefix, or, for the body decoder, they have a default) |
| OldParsers.DecodeStructure | moto/motocore/parsers.py:325-341 | the member loop computes the structure decoding specification |
| OldParsers.ProbeContiguous | moto/motocore/parsers.py:356-364 | the probe of one element prefix covers exactly the consecutive indices some key starts with, stops at the first that none does, and holds each element decoded at its own index |
| OldParsers.ProbeKeys | moto/motocore/parsers.py:358 | each probed index has a key starting with its element name, and the index after the run has none |
| OldParsers.ProbeElement | moto/motocore/parsers.py:359-363 | each probed value is the element decoded at its own index |
| OldParsers.ProbeStep | moto/motocore/parsers.py:358-364 | a probe that finds index i is that element followed by the probe from i + 1 |
| OldParsers.ListPrefixesLayout | moto/motocore/parsers.py:351-354 | the element prefixes: the body decoder first tries the bare prefix, the query-string decoder never does, the member name comes before "member", and "member" is always tried last |
| OldParsers.ProbeAllConcat | moto/motocore/parsers.py:356-365 | a list is the runs of its element prefixes concatenated in prefix order |
| OldParsers.ProbeRun | moto/motocore/parsers.py:357-364 | the while loop on one element prefix computes the probe specification from index 1 |
| OldParsers.DecodeList | moto/motocore/parsers.py:343-365 | the list loop over the element prefixes computes the list decoding specification |
| OldParsers.FormBooleanDecoding | moto/motocore/parsers.py:367-375 | a boolean value is kept, a string is true exactly when lower-cased it is "true", anything else is false; a missing key reads the metadata default |
| OldParsers.QueryListsFirstElement | moto/motocore/parsers.py:157-170 | the query-string decoder reads element 0 of the key's list, and a boolean is true exactly when that text lower-cased is "true" |
| OldParsers.QueryAction | moto/motocore/parsers.py:303-311 | the action is the body's Action when the body is non-empty and has one that is not None; otherwise the query string's Action, or None |
| OldParsers.QueryDoParse | moto/motocore/parsers.py:313-319 | the body is decoded when it is non-empty, the query string otherwise |
| OldParsers.QueryParse | moto/motocore/parsers.py:275-301 | a parsed request's action is the converted name of the request's Action, an operation of the service; an action that names no operation raises `OperationNotFoundError`; the arguments are `{}` without an input shape and otherwise the structure decoding of the body, or of the query string when the body is empty, whose error is the parse's error |
| OldParsers.QueryStringParse | moto/motocore/parsers.py:112-116 | without a shape the result is the empty dict; with one it is the shape's decoding of the query string |
| OldParsers.Index | moto/motocore/parsers.py:451 | indexing succeeds exactly on a dict holding the key |
| OldParsers.AnyItemStartsWith | moto/motocore/parsers.py:393-394 | true exactly when some non-empty string item starts with the prefix and every item before it is a string; false exactly when every item is a string and none counts; otherwise the first non-string item raises TypeError (bytes) or AttributeError |
| OldParsers.HasMemberJson | moto/motocore/parsers.py:514-515 | on a dict, a member is present exactly when some non-empty key starts with its name |
| OldParsers.Iterate | moto/motocore/parsers.py:480 | iterating a list visits its items |
| OldParsers.JsonItems | moto/motocore/parsers.py:480-486 | the item loop yields one decoded value per remaining item |
| OldParsers.JsonItemsElementwise | moto/motocore/parsers.py:480-487 | each decoded item is the member shape's decoding of the item at the same position |
| OldParsers.JsonBooleanTruthiness | moto/motocore/parsers.py:490-492 | a JSON boolean is the truthiness of the value under its key, false when absent |
| OldParsers.JsonAction | moto/motocore/parsers.py:398-401 | the action is the last dot-separated field of X-Amz-Target: it holds no dot, ends the header, follows a dot unless it is the whole header, and is empty when the header is absent |
| OldParsers.JsonParse | moto/motocore/parsers.py:403-435 | the action is the converted last field of X-Amz-Target, an operation of the service, else `OperationNotFoundError`; without an input shape the arguments are `{}`; otherwise a body `json.loads` refuses raises, and the arguments are the top-level decoding of the loaded body, whose error is the parse's error |
| OldParsers.LabelName | moto/motocore/parsers.py:548 | a label's name drops its two braces |
| OldParsers.RestAction | moto/motocore/parsers.py:519-538 | the operation found is the first, in model order, matching the method, the segment count and every literal segment; none is found only when no operation matches; when every operation has a method and a URI the search never raises |
| OldParsers.ParseUriParams | moto/motocore/parsers.py:540-550 | the segment loop computes the URI parameter specification |
| OldParsers.UriParamsKeys | moto/motocore/parsers.py:545-549 | the URI parameters are keyed by exactly the label names |
| OldParsers.UriParamsBinding | moto/motocore/parsers.py:546-549 | each label name holds the request segment under its last label |
| OldParsers.MergeRestData | moto/motocore/parsers.py:573-581 | the merged data holds the keys of all three sources; the body overrides the query string, which overrides the URI parameters |
| OldParsers.RestBody | moto/motocore/parsers.py:580-581 | an empty body adds nothing; otherwise the loaded body must be a dictionary, a body that does not load raises and one that loads to a non-dictionary raises TypeError |
| OldParsers.RestJsonParse | moto/motocore/parsers.py:552-590 | the operation lookup's error is returned as is and no match raises `OperationNotFoundError`; a body error is returned; without an input shape the arguments are `{}`; otherwise they are the top-level decoding of the URI parameters, query string and body merged in that order, whose error is the parse's error; the action is the converted name of the matching operation |
| OldParsers.HandleBoolean | moto/motocore/parsers.py:367-375 | a decoded boolean is a boolean; the body decoder fails only when reading the value fails |
| OldParsers.HandleInteger | moto/motocore/parsers.py:377-379 | a decoded integer is an integer, and decoding succeeds exactly when reading the value and converting it both do |
| OldParsers.HandleStructure | moto/motocore/parsers.py:325-341 | a decoded structure is always a dictionary; StructureKeys states which keys it holds |
| OldParsers.HandleList | moto/motocore/parsers.py:343-365 | a decoded list is always a list; ProbeAllConcat states its items |
| OldParsers.ParseShape | moto/motocore/parsers.py:321-323 | no contract of its own: the dispatch on the shape's type that defines the older form decoding, whose cases the handlers state |
| OldParsers.DecodeMembers | moto/motocore/parsers.py:329-340 | no contract of its own: the member loop that DecodeStructure computes and StructureKeys characterises |
| OldParsers.Probe | moto/motocore/parsers.py:356-364 | no contract of its own: the probe that ProbeContiguous, ProbeKeys, ProbeElement and ProbeStep characterise |
| OldParsers.ProbeAll | moto/motocore/parsers.py:351-365 | no contract of its own: the probes concatenated, as ProbeAllConcat states |
| OldParsers.JsonParseShape | moto/motocore/parsers.py:437-504 | no contract of its own: the older JSON decoding, whose cases JsonItemsElementwise and JsonBooleanTruthiness state |
| OldParsers.JsonMembers | moto/motocore/parsers.py:441-465 | no contract of its own: the member loop of the older JSON decoder, keyed by HasMemberJson |
| OldParsers.RestActionRest | moto/motocore/parsers.py:519-538 | the search from the second operation on: no match means no operation matches, a match is the first matching one, and with every operation routed the search does not fail |
| OldParsers.UriParams | moto/motocore/parsers.py:540-550 | no contract of its own: the URI parameters that UriParamsKeys and UriParamsBinding characterise |
| OrderedDicts.ODict.Put | moto/cloudfront/models.py:394 | storing under a key keeps the dict well formed and maps the key to the value; a new key goes last in the order, an existing key keeps its place |
| OrderedDicts.ODict.Del | moto/cloudfront/models.py:423 | deleting a key keeps the dict well formed, removes the key's entry and drops the key from the order, the rest in order |
| OrderedDicts.ODict.Values | moto/cloudfront/models.py:431 | the values are listed one per key, in insertion order |
| OrderedDicts.ValuesAreEntries | moto/cloudfront/models.py:431 | the values listed are exactly the values stored: each stored value is listed and nothing else is |
| OrderedDicts.EmptyDict | moto/cloudfront/models.py:368 | a new dict is well formed, holds nothing and lists no values |
| OrderedDicts.PutNewValues | moto/cloudfront/models.py:394-431 | after storing a new key, the values listed are the earlier ones followed by the new value |
| OrderedDicts.PutDel | moto/cloudfront/models.py:394-423 | storing a new key and then deleting it gives back the dict as it was, order included |
| OrderedDicts.RemoveKey | moto/cloudfront/models.py:423 | what remains is every key but the deleted one, and no more of them |
| QueryDecode.WireName | moto/core/parse.py:387-418 | the query dialect uses the serialised name or the default; EC2 prefers queryName, otherwise capitalises the first letter of the serialised name, and an empty serialised name raises |
| QueryDecode.DoParse | moto/core/parse.py:266-268 | the parse of the top-level shape over the request values, except that the undefined marker becomes the empty dict; a successful result is never the undefined marker |
| QueryDecode.ParseParams | moto/core/parse.py:254-260 | without an input shape the parameters are the empty dict, and a successful parse is never undefined |
| QueryDecode.ParseAction | moto/core/parse.py:262-264 | the action is the Action parameter, or UnknownAction when it is absent |
| QueryDecode.Parse | moto/core/parse.py:223-231 | a parsed request carries the Action parameter, an operation of the service, and the parameters decoded with that operation's input shape |
| QueryDecode.DecodeList | moto/core/parse.py:295-319 | the list loop computes the list decoding of its shape |
| QueryDecode.ProbeElements | moto/core/parse.py:309-318 | the element loop probes names 1, 2, ... exactly as the probing specification does |
| QueryDecode.DecodeMap | moto/core/parse.py:321-342 | the map loop computes the map decoding of its shape |
| QueryDecode.ProbeEntries | moto/core/parse.py:331-341 | the entry loop probes key and value names 1, 2, ... exactly as the map probing specification does |
| QueryDecode.ProbeListContiguous | moto/core/parse.py:309-318 | a probed list holds the values found at consecutive indices from the start, none undefined, and stops at the first undefined one unless the bound is reached |
| QueryDecode.ProbeListOfRun | moto/core/parse.py:309-318 | conversely, a run of defined values closed by an undefined one is exactly what probing returns |
| QueryDecode.ListDecoding | moto/core/parse.py:295-319 | an empty-string parameter is the empty list (query dialect only; EC2 has no such case and uses the prefix as it is); a list decodes to a list or to undefined |
| QueryDecode.ListElement | moto/core/parse.py:311-317 | element k of a decoded list is the decoding of the parameter named with index k + 1, and is defined |
| QueryDecode.ListEnd | moto/core/parse.py:311-319 | a decoded list is never empty, and unless the bound is reached the parameter after its last element decodes to undefined |
| QueryDecode.ListUndefined | moto/core/parse.py:315-319 | when the first element is undefined the list is undefined |
| QueryDecode.GatherCollectsAll | moto/core/parse.py:284-292 | the member loop keeps every defined member value under its name |
| QueryDecode.GatherCollectsOnly | moto/core/parse.py:284-292 | the member loop adds nothing but defined member values under member names |
| QueryDecode.DecodeMembersGathers | moto/core/parse.py:284-292 | when every member decodes, the member loop returns exactly the gathered defined values |
| QueryDecode.GatherFields | moto/core/parse.py:284-293 | the gathered dict holds a member exactly when its value is defined, with that value, and it is empty exactly when every member is undefined |
| QueryDecode.StructureDecoding | moto/core/parse.py:274-293 | a structure whose non-empty prefix begins no parameter is undefined; otherwise it is undefined when every member is, else the dict of its defined members |
| QueryDecode.BooleanDecoding | moto/core/parse.py:358-366 | a boolean parameter is kept, a string is true exactly when lower-cased it is "true", and a missing parameter without default is undefined |
| QueryDecode.IntegerDecoding | moto/core/parse.py:368-372 | an integer or long parameter given as text decodes to its integer value or raises ValueError |
| QueryDecode.FlattenedListPrefix | moto/core/parse.py:300-305 | for a flattened list with a named member, the last dotted segment of the prefix is replaced by the member's name |
| QueryDecode.ProbeMapRun | moto/core/parse.py:332-341 | every key the probed map adds was found at some index within the bound, all earlier indices holding string keys; the keys already there stay |
| QueryDecode.MapKeyOrigin | moto/core/parse.py:321-342 | every key of a decoded map was read, as a string, from the key parameter at some index within the bound |
| QueryDecode.OfScalarType | moto/core/parse.py:344-378 | the kind of value each scalar handler yields for a present parameter: a boolean, an integer, a float, bytes or a timestamp; a string keeps what it holds |
| QueryDecode.HandleBoolean | moto/core/parse.py:358-366 | never raises; the result is a boolean or undefined, and undefined exactly when the value read is neither a boolean nor a string |
| QueryDecode.HandleInteger | moto/core/parse.py:368-372 | undefined exactly when the parameter is absent; otherwise an integer, or ValueError or TypeError |
| QueryDecode.HandleFloat | moto/core/parse.py:374-378 | undefined exactly when the parameter is absent; otherwise a float (an integer or boolean becomes the float of its value), or TypeError |
| QueryDecode.HandleBlob | moto/core/parse.py:344-349 | undefined exactly when the parameter is absent; otherwise bytes, or TypeError |
| QueryDecode.HandleTimestamp | moto/core/parse.py:351-356 | undefined exactly when the parameter is absent; otherwise a timestamp, or TypeError |
| QueryDecode.HandleScalar | moto/core/parse.py:270-272 | a defined scalar has the kind of its shape's type; only ValueError or TypeError is raised; every scalar but a boolean is undefined exactly when its parameter is absent |
| QueryDecode.ParseShape | moto/core/parse.py:270-272 | no contract of its own: the dispatch on the shape's type that defines the query decoding; StructureDecoding, ListDecoding, MapKeyOrigin and HandleScalar state what it yields |
| QueryDecode.HandleStructure | moto/core/parse.py:279-293 | no contract of its own: the structure decoding, whose properties StructureDecoding and GatherFields state |
| QueryDecode.HandleList | moto/core/parse.py:295-319 | no contract of its own: the list decoding, whose properties ListDecoding, ListElement, ListEnd and FlattenedListPrefix state, and which DecodeList computes by a loop |
| QueryDecode.HandleMap | moto/core/parse.py:321-342 | no contract of its own: the map decoding, whose properties MapKeyOrigin and ProbeMapRun state, and which DecodeMap computes by a loop |
| QueryDecode.ProbeList | moto/core/parse.py:309-318 | no contract of its own: the element probe, which ProbeListContiguous and ProbeListOfRun characterise as the run of defined values from index 1 |
| QueryDecode.ProbeMap | moto/core/parse.py:331-341 | no contract of its own: the entry probe, whose added keys ProbeMapRun traces to their index |
| Quotas.EncodeChar | moto/stepfunctions/parser/quotas.py:10 | one character's UTF-8 encoding takes one to four bytes, exactly one for an ASCII character |
| Quotas.EncodeAppend | moto/stepfunctions/parser/quotas.py:10 | `encode("utf-8")` of a concatenation is the concatenation of the encodings |
| Quotas.EncodeLength | moto/stepfunctions/parser/quotas.py:10-11 | the encoded length lies between the character count and four times it, and equals the character count for ASCII text |
| Quotas.StringQuota | moto/stepfunctions/parser/quotas.py:5-12 | a string under 64 Ki characters always fits the 256 KiB quota, one of 256 Ki characters or more never does, and an ASCII string fits exactly when it is shorter than 256 Ki characters |
| Quotas.JsonQuota | moto/stepfunctions/parser/quotas.py:9 | a value that is not a string fits exactly when its JSON text fits |
| Quotas.QuotaPrefix | moto/stepfunctions/parser/quotas.py:8-12 | when a concatenation fits the quota, so does each part |
| Quotas.Encode | moto/stepfunctions/parser/quotas.py:10 | no contract of its own: UTF-8 encoding, which EncodeChar, EncodeAppend and EncodeLength state |
| RdsBase.ResourceId | moto/rds3/models/base.py:15-17 | the base class has no resource id: reading one raises NotImplementedError exactly when the resource kind does not supply it |
| RdsBase.ModelArn | moto/rds3/models/base.py:27-34 | the ARN fails exactly when the resource id does, and is formed from the backend's region and account, the resource type (None when unset) and the id |
| RdsBase.ArnFields | moto/rds3/models/base.py:29 | when no field holds a colon, the ARN splits on colons into arn, aws, rds, region, account, resource type and id |
| RdsBase.ArnPrefix | moto/rds3/models/base.py:29 | every ARN starts with arn:aws:rds: |
| RdsBase.ArnInjective | moto/rds3/models/base.py:29-34 | within one region and account, resources with colon-free types and ids share an ARN only when type and id are equal |
| RdsBase.Arn | moto/rds3/models/base.py:27-33 | no contract of its own: the ARN text, whose fields ArnFields, whose prefix ArnPrefix and whose injectivity ArnInjective state |
| RdsClusterSnapshot.NewClusterSnapshot | moto/rds3/models/db_cluster_snapshot.py:21-43 | a new cluster snapshot carries its identifier, type and the given tags, is available at 100 percent, copies the cluster's identifier and shares nothing: one restore attribute with no accounts |
| RdsClusterSnapshot.OfCluster | moto/rds3/models/db_cluster_snapshot.py:139-145 | the snapshots kept are exactly those of the cluster whose type is requested, no more than there were |
| RdsClusterSnapshot.ClusterShareGrant | tests/test_rds3/test_db_cluster_snapshots.py:149-174 | sharing with accounts 123 and 456 from nothing lists both |
| RdsClusterSnapshot.ClusterShareSwap | tests/test_rds3/test_db_cluster_snapshots.py:176-203 | adding 789 while removing 123 and 456 leaves only 789 |
| RdsClusterSnapshot.ClusterShareRevoke | tests/test_rds3/test_db_cluster_snapshots.py:205-215 | removing 789 leaves no account |
| RdsClusterSnapshot.ClusterShareQuota | moto/rds3/models/db_cluster_snapshot.py:83-86 | sharing with more accounts than the quota allows fails with SharedSnapshotQuotaExceeded |
| RdsClusterSnapshot.DBClusterSnapshotBackend.constructor | moto/rds3/models/db_cluster_snapshot.py:98-100 | a new backend holds no cluster snapshot |
| RdsClusterSnapshot.DBClusterSnapshotBackend.Values | moto/rds3/models/db_cluster_snapshot.py:146 | the snapshots are listed in insertion order, one per identifier |
| RdsClusterSnapshot.DBClusterSnapshotBackend.GetDbClusterSnapshot | moto/rds3/models/db_cluster_snapshot.py:102-105 | a stored snapshot is returned; any other identifier raises DBClusterSnapshotNotFound |
| RdsClusterSnapshot.DBClusterSnapshotBackend.DescribeDbClusterSnapshotAttributes | moto/rds3/models/db_cluster_snapshot.py:148-153 | the attributes of a stored snapshot; any other identifier raises DBClusterSnapshotNotFound |
| RdsClusterSnapshot.DBClusterSnapshotBackend.CreateDbClusterSnapshot | moto/rds3/models/db_cluster_snapshot.py:107-121 | an identifier in use raises DBClusterSnapshotAlreadyExists and an unknown cluster DBClusterNotFoundFault, storing nothing; otherwise the new snapshot of the cluster is stored last |
| RdsClusterSnapshot.DBClusterSnapshotBackend.DeleteDbClusterSnapshot | moto/rds3/models/db_cluster_snapshot.py:123-125 | a stored snapshot is removed and returned, the others keeping their order; an unknown one raises DBClusterSnapshotNotFound and changes nothing |
| RdsClusterSnapshot.DBClusterSnapshotBackend.DescribeDbClusterSnapshots | moto/rds3/models/db_cluster_snapshot.py:127-146 | an identifier gives that one snapshot or DBClusterSnapshotNotFound; else a cluster gives its snapshots of the requested types, automated and manual by default; else every snapshot |
| RdsClusterSnapshot.DBClusterSnapshotBackend.ModifyDbClusterSnapshotAttribute | moto/rds3/models/db_cluster_snapshot.py:155-180 | an unknown snapshot raises DBClusterSnapshotNotFound, a snapshot that is not manual InvalidDBClusterSnapshotStateFault; otherwise the first attribute is rebuilt from its accounts, the rebuild's error raised or the snapshot updated with it, nothing else changing |
| RdsResponses.FirstIndex | moto/rds3/responses.py:82 | the index is found exactly when the marker is listed, and lists the marker there |
| RdsResponses.FirstIndexIsFirst | moto/rds3/responses.py:82 | the index found is the first occurrence |
| RdsResponses.Ids | moto/rds3/responses.py:80 | one resource id per resource, in order |
| RdsResponses.PageStart | moto/rds3/responses.py:81-84 | without a marker the page starts at 0; with one, it fails exactly when the marker is no resource's id, and never starts past the end |
| RdsResponses.PaginateSpec | moto/rds3/responses.py:71-89 | a page size outside 20 to 100 raises InvalidParameterValue and an unknown marker ValueError; otherwise the page is the size's worth of resources from the start, and a next marker, the id of the page's last resource, is given exactly when resources remain |
| RdsResponses.NextPageStart | moto/rds3/responses.py:81-88 | with distinct, non-empty ids, the next marker makes the next page start right after this page |
| RdsResponses.PaginateFull | moto/rds3/responses.py:85-88 | a page before the end is a full page whose marker is its last id |
| RdsResponses.PaginateLast | moto/rds3/responses.py:85-89 | the last page runs to the end and has no marker |
| RdsResponses.MarkerStart | moto/rds3/responses.py:81-82 | the marker of a resource makes the page start right after it |
| RdsResponses.WalkAll | moto/rds3/responses.py:71-89 | following the markers from the first page yields every resource exactly once, in order |
| RdsResponses.TwentyOneAtTwenty | tests/test_rds3/test_db_snapshots.py:61-78 | of 21 resources at page size 20, the first page holds the first 20 with the 20th id as marker, and the marker then gives the last one alone |
| RdsResponses.CallAction | moto/rds3/responses.py:53-65 | a result is answered 200, paginated when the action can paginate, the marker kept only when non-empty; a backend or paging exception is answered by ErrorAnswer: success exactly for an RDS error |
| RdsResponses.ErrorAnswer | moto/rds3/responses.py:62-64 | an RDS error becomes a result carrying that error, with its own status or 400 when it has none; any other exception propagates unchanged |
| RdsResponses.Paginate | moto/rds3/responses.py:71-89 | no contract of its own: the page, which PaginateSpec, PaginateFull, PaginateLast and MarkerStart characterise |
| RdsResponses.Follow | moto/rds3/responses.py:71-89 | no contract of its own: a client following next markers, the partner of Paginate in WalkAll |
| RdsResponses.Walk | moto/rds3/responses.py:71-89 | no contract of its own: Follow over Paginate, which WalkAll shows yields every resource in order |
| RdsSnapshot.IdentifierValidAsWritten | moto/rds3/models/db_snapshot.py:43-57 | the check as written raises IndexError exactly on the empty identifier (it reads the first character before giving up); on any other identifier it agrees with the intended rule |
| RdsSnapshot.DoubleHyphen | moto/rds3/models/db_snapshot.py:52 | an identifier contains "--" exactly when it is not free of double hyphens |
| RdsSnapshot.HyphenatedWordsShape | moto/rds3/models/db_snapshot.py:50-56 | hyphen-separated words are exactly the non-empty strings of letters, digits and hyphens that neither start nor end with a hyphen and hold no two in a row |
| RdsSnapshot.IdentifierGrammar | moto/rds3/models/db_snapshot.py:29-57 | an identifier is valid exactly when it has 1 to 255 characters, starts with a letter and is hyphen-separated words of letters and digits |
| RdsSnapshot.IsIdentifierValid | moto/rds3/models/db_snapshot.py:29-57 | no contract of its own: the identifier check with the empty identifier invalid, whose grammar IdentifierGrammar states and whose agreement with the check as written on non-empty identifiers IdentifierValidAsWritten states |
| RdsSnapshot.ExampleIdentifierValid | moto/rds3/models/db_snapshot.py:39 | the documented example my-snapshot-id is valid |
| RdsSnapshot.ColonIdentifierInvalid | tests/test_rds3/test_db_snapshots.py:158-160 | rds:snapshot-1 is not a valid identifier |
| RdsSnapshot.DoubleHyphenInvalid | moto/rds3/models/db_snapshot.py:52-53 | a--b is not a valid identifier |
| RdsSnapshot.EmptyIdentifierRaises | moto/rds3/models/db_snapshot.py:44-48 | the empty identifier makes the check as written raise IndexError, where the intended rule calls it invalid |
| RdsSnapshot.InitialAttributes | moto/rds3/models/db_snapshot.py:165-170 | a new attribute result names its snapshot and holds one restore attribute with no accounts |
| RdsSnapshot.Without | moto/rds3/models/db_snapshot.py:159 | the accounts kept are those not removed, no more than there were |
| RdsSnapshot.WithoutCounts | moto/rds3/models/db_snapshot.py:159 | filtering keeps every occurrence of an account not removed and none of a removed one |
| RdsSnapshot.WithoutAppend | moto/rds3/models/db_snapshot.py:158-159 | filtering a concatenation filters each part |
| RdsSnapshot.WithoutNothing | moto/rds3/models/db_snapshot.py:159 | filtering out accounts that are not there changes nothing |
| RdsSnapshot.BuildFromValues | moto/rds3/models/db_snapshot.py:142-162 | an attribute other than restore raises InvalidParameterValue, an account both added and removed InvalidParameterCombination, more accounts than the quota SharedSnapshotQuotaExceeded; otherwise the attribute holds exactly the old and added accounts not removed |
| RdsSnapshot.ShareThenRevoke | moto/rds3/models/db_snapshot.py:158-162 | sharing with new accounts and then revoking exactly those gives the original list back, order included |
| RdsSnapshot.WithoutAll | moto/rds3/models/db_snapshot.py:159 | removing every account leaves none |
| RdsSnapshot.InitialTags | moto/rds3/models/db_snapshot.py:76-82 | explicit tags win; otherwise the instance's tags when it copies tags to snapshots; otherwise none |
| RdsSnapshot.DBSnapshot.KmsKeyId | moto/rds3/models/db_snapshot.py:88-93 | no contract of its own: the snapshot's key, which NewSnapshot states is the given key or else the instance's |
| RdsSnapshot.DBSnapshot.Encrypted | moto/rds3/models/db_snapshot.py:88-93 | no contract of its own: the snapshot's encryption flag, which NewSnapshot states is true with a given key and else the instance's |
| RdsSnapshot.NewSnapshot | moto/rds3/models/db_snapshot.py:59-102 | a manual snapshot whose identifier fails the corrected identifier check (empty included) raises InvalidDBSnapshotIdentifierValue; otherwise it is available with the given type and initial tags, a given KMS key replacing the instance's and making it encrypted, else the instance's key and encryption |
| RdsSnapshot.CreateEvents | moto/rds3/models/db_snapshot.py:234-235 | creating records exactly two events, DB_SNAPSHOT_CREATE_ then the upper-cased snapshot type then _START, and the same ending in _FINISH, in that order |
| RdsSnapshot.UpperFixedParts | moto/rds3/models/db_snapshot.py:234-235 | upper-casing a whole message whose fixed parts have no lower-case letter only upper-cases its variable middle |
| RdsSnapshot.BackupStatus | moto/rds3/models/db_snapshot.py:127-132 | an automated backup is active exactly while its instance exists, retained otherwise |
| RdsSnapshot.OfInstance | moto/rds3/models/db_snapshot.py:256-262 | the snapshots kept are exactly those of the instance whose type is requested |
| RdsSnapshot.TypeFilter | moto/rds3/models/db_snapshot.py:253-255 | no contract of its own: both types when none is requested, else the one requested; DescribeDbSnapshots states its use |
| RdsSnapshot.ForInstance | moto/rds3/models/db_snapshot.py:270-276 | without an instance every snapshot is kept; with one, exactly that instance's |
| RdsSnapshot.AutomatedOfMembers | moto/rds3/models/db_snapshot.py:278-280 | an instance's group holds exactly its automated snapshots |
| RdsSnapshot.OwnerIff | moto/rds3/models/db_snapshot.py:277-282 | an instance has an automated backup exactly when it has an automated snapshot |
| RdsSnapshot.OwnersDistinct | moto/rds3/models/db_snapshot.py:281-282 | no instance owns two automated backups |
| RdsSnapshot.OfInstanceSnoc | moto/rds3/models/db_snapshot.py:258-261 | filtering one more snapshot appends it exactly when it passes the filter |
| RdsSnapshot.CollectOfInstance | moto/rds3/models/db_snapshot.py:257-262 | the filter loop computes the filter of the stored snapshots in order |
| RdsSnapshot.DBSnapshotBackend.constructor | moto/rds3/models/db_snapshot.py:174-175 | a new backend holds no snapshot |
| RdsSnapshot.DBSnapshotBackend.Values | moto/rds3/models/db_snapshot.py:263 | the snapshots are listed in insertion order, one per identifier |
| RdsSnapshot.DBSnapshotBackend.GetDbSnapshot | moto/rds3/models/db_snapshot.py:177-180 | a stored snapshot is returned; any other identifier raises DBSnapshotNotFound |
| RdsSnapshot.DBSnapshotBackend.DescribeDbSnapshotAttributes | moto/rds3/models/db_snapshot.py:285-290 | the attributes of a stored snapshot; any other identifier raises DBSnapshotNotFound |
| RdsSnapshot.DBSnapshotBackend.Insert | moto/rds3/models/db_snapshot.py:214 | a new snapshot is stored last |
| RdsSnapshot.DBSnapshotBackend.CopyDbSnapshot | moto/rds3/models/db_snapshot.py:182-215 | checked in order: target in use DBSnapshotAlreadyExists, store full SnapshotQuotaExceeded, unknown key KMSKeyNotAccessibleFault, unknown source DBSnapshotNotFound; otherwise a manual snapshot of the source's instance, tagged with the given tags or the source's when copying tags, stored last; a failure changes nothing |
| RdsSnapshot.DBSnapshotBackend.CreateDbSnapshot | moto/rds3/models/db_snapshot.py:217-237 | identifier in use DBSnapshotAlreadyExists, store full SnapshotQuotaExceeded, unknown instance DBInstanceNotFound, invalid identifier as the snapshot raises; otherwise the new snapshot with its two creation events is stored last; a failure changes nothing |
| RdsSnapshot.DBSnapshotBackend.DeleteDbSnapshot | moto/rds3/models/db_snapshot.py:239-242 | a stored snapshot is removed and returned, the others keeping their order; an unknown one raises DBSnapshotNotFound and changes nothing |
| RdsSnapshot.DBSnapshotBackend.DescribeDbSnapshots | moto/rds3/models/db_snapshot.py:244-263 | an identifier gives that one snapshot or DBSnapshotNotFound; else an instance gives its snapshots of the requested types, automated and manual by default; else every snapshot |
| RdsSnapshot.DBSnapshotBackend.DescribeDbInstanceAutomatedBackups | moto/rds3/models/db_snapshot.py:265-283 | one backup per instance owning an automated snapshot, in order of first appearance, holding exactly that instance's automated snapshots in order |
| RdsSnapshot.DBSnapshotBackend.ModifyDbSnapshotAttribute | moto/rds3/models/db_snapshot.py:292-314 | an unknown snapshot raises DBSnapshotNotFound, one that is not manual InvalidDBSnapshotIdentifierValue; otherwise the first attribute is rebuilt, the rebuild's error raised or the snapshot updated with it, nothing else changing |
| RdsSnapshot.GroupAutomated | moto/rds3/models/db_snapshot.py:277-280 | the grouping loop yields the owners in first-appearance order and each owner's automated snapshots |
| RdsSnapshot.GroupSnoc | moto/rds3/models/db_snapshot.py:278-280 | one more snapshot extends its instance's group, and adds its instance to the owners the first time, only when it is automated |
| RdsSnapshot.GroupSkip | moto/rds3/models/db_snapshot.py:279 | a snapshot that is not automated leaves the grouping as it was |
| RdsSnapshot.GroupNew | moto/rds3/models/db_snapshot.py:280 | the first automated snapshot of an instance opens its group |
| RdsSnapshot.GroupAdd | moto/rds3/models/db_snapshot.py:280 | a later automated snapshot of an instance joins the end of its group |
| RdsViewModels.Chain | moto/rds/viewmodels.py:305-314 | a lookup that no layer answers raises AttributeError |
| RdsViewModels.ChainFirst | moto/rds/viewmodels.py:305-314 | a lookup fails exactly when no layer holds the name, and otherwise answers from the first layer holding it |
| RdsViewModels.ChainAppend | moto/rds/viewmodels.py:305-314 | looking up through two groups of layers asks the first group and falls back on the second only when it fails |
| RdsViewModels.ViewLookupOrder | moto/rds/viewmodels.py:122-127 | a view answers from its own properties first, from the wrapped object otherwise, and raises AttributeError when neither has the name |
| RdsViewModels.ViewLookup | moto/rds/viewmodels.py:122-127 | no contract of its own: the single-object view's `__getattribute__`, whose lookup order ViewLookupOrder states |
| RdsViewModels.SnapshotViewLookup | moto/rds/viewmodels.py:305-314 | no contract of its own: the snapshot view's `__getattribute__`, which SnapshotViewChain proves is the four-layer chain view, snapshot, instance view, instance |
| RdsViewModels.SnapshotViewChain | moto/rds/viewmodels.py:300-314 | a snapshot view asks its own properties, then the snapshot, then the instance view's properties, then the instance, in that order |
| RdsViewModels.ProxyTargetGroupView.ConnectionPool | moto/rds/viewmodels.py:111-120 | the connection pool carries the group's maximum connections, idle connections, borrow timeout and pinning filters |
| RdsViewModels.ProxyTargetGroupView.IsDefault | moto/rds/viewmodels.py:103-105 | no contract of its own: the group view is always the default group |
| RdsViewModels.ProxyTargetGroupView.Status | moto/rds/viewmodels.py:107-109 | no contract of its own: the group view is always `available` |
| RdsViewModels.ProxyTargetHealth | moto/rds/viewmodels.py:135-149 | a proxy target is REGISTERING exactly while registering and AVAILABLE otherwise, on port 5432 without a role |
| RdsViewModels.ProxyTargetView.Role | moto/rds/viewmodels.py:135-139 | no contract of its own: the role is always None, which ProxyTargetHealth states |
| RdsViewModels.ProxyTargetView.Port | moto/rds/viewmodels.py:141-143 | no contract of its own: the port is always 5432, which ProxyTargetHealth states |
| RdsViewModels.ProxyTargetView.HealthState | moto/rds/viewmodels.py:145-149 | no contract of its own: the health state, REGISTERING exactly for a registering target and AVAILABLE otherwise, as ProxyTargetHealth states |
| RdsViewModels.Options | moto/rds/viewmodels.py:163-177 | one option per group option, in order, each with its name and one setting per stored setting holding that setting's Name and Value |
| RdsViewModels.Get | moto/rds/viewmodels.py:170-171 | no contract of its own: `setting.get(key)`, None for a missing key; Options and ScalingEmpty state what it reads |
| RdsViewModels.Subnets | moto/rds/viewmodels.py:191-204 | one active subnet per subnet of the group, in order, with its id and zone and not IOPS capable |
| RdsViewModels.EntriesOrder | moto/rds/viewmodels.py:241-250 | a security-group list has one entry per id, in order, each with the same key and status, and every id appears |
| RdsViewModels.Entries | moto/rds/viewmodels.py:241-250 | no contract of its own: the `{key: id, "Status": status}` list, whose length, order, keys and statuses EntriesOrder states |
| RdsViewModels.IpRanges | moto/rds/viewmodels.py:218-227 | no contract of its own: the security group's ranges as `CIDRIP` entries, all `authorized`; EntriesOrder states their order and contents |
| RdsViewModels.InstanceView.VpcSecurityGroups | moto/rds/viewmodels.py:241-250 | no contract of its own: the instance's VPC groups as entries, all `active`; EntriesOrder states their order and contents |
| RdsViewModels.InstanceView.DBSecurityGroups | moto/rds/viewmodels.py:260-269 | no contract of its own: the instance's DB security groups as entries, all `active`; EntriesOrder states their order and contents |
| RdsViewModels.InstanceView.EndpointOf | moto/rds/viewmodels.py:271-276 | the endpoint carries the instance's address and port |
| RdsViewModels.InstanceView.OptionGroupMemberships | moto/rds/viewmodels.py:278-286 | one membership, naming the instance's option group |
| RdsViewModels.InstanceView.ReadReplicaIdentifiers | moto/rds/viewmodels.py:288-290 | the read replica identifiers are the instance's replicas, in order |
| RdsViewModels.MarkParameterGroups | moto/rds/viewmodels.py:252-258 | every parameter group of the instance is marked in-sync in place and the same groups are returned, names unchanged |
| RdsViewModels.ReaderArnsMembers | moto/rds/viewmodels.py:327-331 | the reader ARNs are exactly the ARNs of the members that are not writers |
| RdsViewModels.ReaderArns | moto/rds/viewmodels.py:327-331 | the reader ARNs are no more than the members; ReaderArnsMembers states which ARNs they are |
| RdsViewModels.BaseMember | moto/rds/viewmodels.py:332-342 | no contract of its own: a member's first entry, in-sync at tier 1 with no readers; GlobalMembersShape states what the final entry keeps of it |
| RdsViewModels.FinalMember | moto/rds/viewmodels.py:343-347 | no contract of its own: the completed entry, which GlobalMembersShape states |
| RdsViewModels.GlobalClusterMembers | moto/rds/viewmodels.py:325-348 | one entry per member, in order, each completed by the final step with the reader ARNs |
| RdsViewModels.GlobalMembersShape | moto/rds/viewmodels.py:332-347 | each entry keeps its member's ARN and writer flag, is in-sync at promotion tier 1; a writer lists exactly the readers and no forwarding status; a reader lists none and has forwarding disabled |
| RdsViewModels.ClusterView.DBClusterMembers | moto/rds/viewmodels.py:405-416 | one entry per cluster member, in order, each naming that member and marked as a writer |
| RdsViewModels.ClusterStatus | moto/rds/viewmodels.py:362-364 | a cluster view is creating exactly when it is being created or the cluster itself is creating; otherwise it shows the cluster's status |
| RdsViewModels.ScalingEmpty | moto/rds/viewmodels.py:370-381 | an empty scaling configuration reads as no configuration, its fields all None |
| RdsViewModels.ClusterView.Status | moto/rds/viewmodels.py:362-364 | no contract of its own: `creating` while the view says so, else the cluster's status, as ClusterStatus states |
| RdsViewModels.ClusterView.ScalingConfigurationInfo | moto/rds/viewmodels.py:370-381 | no contract of its own: the six scaling entries read off the configuration, None when missing; ScalingEmpty states that an empty configuration reads like none |
| RdsViewModels.ClusterView.VpcSecurityGroups | moto/rds/viewmodels.py:383-389 | no contract of its own: the cluster's VPC groups as entries, all `active`; EntriesOrder states their order and contents |
| RdsViewModels.ClusterView.GlobalWriteForwardingRequested | moto/rds/viewmodels.py:399-403 | no contract of its own: the truth value of the cluster's setting |
| RestDecode.GroupName | moto/core/parse.py:539-544 | a group name has no braces, plus or minus signs left and is no longer than the element it came from |
| RestDecode.Convert | moto/core/parse.py:535-548 | an element that is not a placeholder stays literal; a placeholder captures under its group name, one or more characters exactly when it is the last element, and crossing slashes only when it is last and greedy |
| RestDecode.UriPattern | moto/core/parse.py:550-556 | one piece per slash-separated element, each converted with the last-element flag set only on the last |
| RestDecode.PieceRegexps | moto/core/parse.py:554 | one regular expression per piece, in order |
| RestDecode.UriToRegexp | moto/core/parse.py:552-557 | the regular expression is anchored at both ends, between the anchors the converted pieces joined by slashes |
| RestDecode.LiteralUriRegexp | moto/core/parse.py:535-557 | a template without placeholders gives its own text as the regular expression, anchored at both ends |
| RestDecode.UriPath | moto/core/parse.py:521 | the path of a request URI is a prefix of it holding no query or fragment |
| RestDecode.MatchElements | moto/core/parse.py:523 | a path's elements match the pattern exactly when every element matches its piece |
| RestDecode.MatchElementsBinds | moto/core/parse.py:523 | a match binds every capture to its path element and leaves the other groups as they were |
| RestDecode.MatchRenders | moto/core/parse.py:523-524 | a matched path is recovered by filling the pattern with the groups bound by the match |
| RestDecode.Table | moto/core/parse.py:562-567 | the registration table holds one entry per operation, in order, with its method, its route expression and its name |
| RestDecode.LastNamedFound | moto/core/parse.py:567 | a method and expression are registered exactly when some operation registers them |
| RestDecode.LastNamedLast | moto/core/parse.py:567 | the name registered for a method and expression is that of the last operation registering them |
| RestDecode.RestAction | moto/core/parse.py:559-574 | selecting the action fails, with KeyError, exactly when some operation lacks its method or request URI |
| RestDecode.SelectRouteUnknown | moto/core/parse.py:568-574 | when no remaining route matches, the action is UnknownOperation with no match |
| RestDecode.SelectRouteFirst | moto/core/parse.py:568-573 | the first matching route decides: its match is kept and the action is the name last registered for its expression |
| RestDecode.SelectRouteSkips | moto/core/parse.py:568-573 | routes whose expressions do not match the path are passed over: the search from the first of them answers as the search from the next candidate |
| RestDecode.SelectRoutePasses | moto/core/parse.py:568-573 | one route whose expression does not match the path is passed over |
| RestDecode.UnknownVerb | moto/core/parse.py:568-574 | a method no operation uses gives UnknownOperation |
| RestDecode.HeaderGet | moto/core/parse.py:628 | a header is found exactly when some header carries that name |
| RestDecode.HeaderMapKeys | moto/core/parse.py:663-674 | the header map's keys are exactly the names of the headers starting with the prefix, prefix removed |
| RestDecode.HeaderMapLast | moto/core/parse.py:668-673 | each key holds the value of the last header giving that key |
| RestDecode.ParseNonPayloadAttrs | moto/core/parse.py:617-661 | the member loop computes exactly the non-payload specification from the given parsed fields |
| RestDecode.StopIgnoresRest | moto/core/parse.py:645-660 | a query-string map member, or a missing query-string value, ends the loop: the members after it are never read |
| RestDecode.BodyMembersSkipped | moto/core/parse.py:621-623 | members without a location are skipped and change nothing |
| RestDecode.InitialBodyParse | moto/core/parse.py:692-693 | the REST-JSON body is read as the JSON body parser reads it |
| RestDecode.Payload | moto/core/parse.py:588-615 | the payload step never drops a field already parsed or changes one other than the payload member; an undeclared payload member raises KeyError; a string or blob payload is the body itself, set only when non-empty; without a payload the decoded body is merged in |
| RestDecode.FalsyPayloadDropped | moto/core/parse.py:602-611 | REST-JSON: a payload member whose decoding is falsy is not set |
| RestDecode.DoParse | moto/core/parse.py:576-583 | without an input shape the parameters are the empty dict |
| RestDecode.OperationNamed | moto/core/parse.py:225 | an operation is found exactly when one carries that name, and the one found is from the service and carries it |
| RestDecode.Parse | moto/core/parse.py:223-231 | a parsed request's action names an operation of the service |
| RestDecode.SelectRoute | moto/core/parse.py:568-574 | no contract of its own: the search over the registered expressions that SelectRouteFirst and SelectRouteUnknown characterise |
| RestDecode.HeaderMap | moto/core/parse.py:663-674 | no contract of its own: the prefixed-header map whose keys HeaderMapKeys and whose values HeaderMapLast state |
| RestDecode.NonPayload | moto/core/parse.py:617-661 | no contract of its own: the member walk that ParseNonPayloadAttrs computes by a loop and StopIgnoresRest and BodyMembersSkipped characterise |
| RestDecode.DecodeBody | moto/core/parse.py:602-614 | no contract of its own: the body's decoding by the JSON or the XML decoder, whose properties those decoders' lemmas state |
| RestSerialize.PrefixKeys | moto/motocore/serialize.py:518-521 | each user key appears under the prefix with its value, and every key made carries the prefix in front of a user key |
| RestSerialize.PartitionParameters | moto/motocore/serialize.py:395-401 | the parameter loop computes the partition specification from empty parts |
| RestSerialize.PlaceEffect | moto/motocore/serialize.py:474-516 | placing one parameter adds it to the body exactly when its member has no location, and adds the URI keys it names to the URI part |
| RestSerialize.PlaceElsewhere | moto/motocore/serialize.py:486-514 | query-string and header parameters leave the body and the URI part as they were |
| RestSerialize.PlaceQuery | moto/motocore/serialize.py:486-499 | a query-string parameter is always placed, leaving body and URI alone |
| RestSerialize.PartitionStep | moto/motocore/serialize.py:395-401 | a parameter that is not None is placed, and the partition of the rest continues from there |
| RestSerialize.PartitionBody | moto/motocore/serialize.py:395-516 | the body part holds exactly the names of the parameters without a location |
| RestSerialize.PartitionUri | moto/motocore/serialize.py:395-485 | the URI part holds exactly the serialised names of the URI parameters |
| RestSerialize.QueryStringValues | moto/motocore/serialize.py:486-490 | a boolean query-string value is written "true" or "false"; a dict is merged into the query string |
| RestSerialize.HeaderMapPrefixed | moto/motocore/serialize.py:504-521 | each entry of a header map becomes a header named prefix plus key, holding its value |
| RestSerialize.Placeholders | moto/motocore/serialize.py:429 | no placeholder name found in a template holds a closing brace |
| RestSerialize.EncodedParams | moto/motocore/serialize.py:428-435 | every placeholder gets an encoding; a plain one is its parameter percent-encoded with the default safe characters; a missing parameter raises KeyError |
| RestSerialize.FormatLiteral | moto/motocore/serialize.py:436 | text without braces is copied in front of the rest's formatting |
| RestSerialize.FormatLabel | moto/motocore/serialize.py:436 | a placeholder is replaced by its encoded value in front of the rest's formatting |
| RestSerialize.RenderPlain | moto/motocore/serialize.py:421-436 | a template without placeholders renders as itself |
| RestSerialize.ExpandHostPrefix | moto/motocore/serialize.py:155-169 | an operation without an endpoint has no host prefix; an endpoint without `hostPrefix` raises `KeyError`; an input that is no structure raises `AttributeError`; a host-label member without a parameter raises `KeyError`; an endpoint that expands gives some prefix |
| RestSerialize.ParamGet | moto/motocore/serialize.py:453 | a parameter is found exactly when one carries that name |
| RestSerialize.HostLabels | moto/motocore/serialize.py:162-167 | fails, always with `KeyError`, exactly when a host-label member has no parameter; otherwise its keys are exactly the host-label member names, each holding its parameter as text |
| RestSerialize.LabelHostPrefix | moto/motocore/serialize.py:155-169 | a prefix `{Label}suffix` with a bound label expands to the label's parameter, as text, followed by the suffix |
| RestSerialize.Payload | moto/motocore/serialize.py:438-467 | an undeclared payload member raises KeyError; a string or blob payload is the parameter as bytes, empty bytes when absent; another payload member that is absent gives no body; without a payload member, the body parameters are encoded when there are any, and there is no body otherwise |
| RestSerialize.HeaderValue | moto/motocore/serialize.py:526-542 | a timestamp or a JSON-value header becomes text, a timestamp in RFC 822 form unless the member names a format, a JSON-value header as base64 of its compact (`separators=(",", ":")`) JSON text; any other value is sent as it is |
| RestSerialize.EncodePayload | moto/motocore/serialize.py:469-472 | the payload is never text: text becomes its UTF-8 bytes and anything else is unchanged |
| RestSerialize.Place | moto/motocore/serialize.py:474-516 | no contract of its own: the placement of one parameter, which PlaceEffect, PlaceElsewhere and PlaceQuery state |
| RestSerialize.Partition | moto/motocore/serialize.py:395-401 | no contract of its own: the partition that PartitionParameters computes by a loop and PartitionStep, PartitionBody and PartitionUri characterise |
| RestSerialize.RenderUriTemplate | moto/motocore/serialize.py:421-436 | no contract of its own: the rendering that RenderPlain and EncodedParams state |
| RestSerialize.Format | moto/motocore/serialize.py:436 | no contract of its own: named-field formatting, which FormatLiteral and FormatLabel state |
| Route53Responses.ChangeWeight | moto/route53/responses.py:171-178 | a change with no records adds nothing, one with records adds their number, twice under `UPSERT`; a change without `ResourceRecordSet`, or with records but no `Action`, raises `KeyError` |
| Route53Responses.EffectiveCountAppend | moto/route53/responses.py:170-178 | counting a batch in two parts adds the two counts |
| Route53Responses.EffectiveCountFails | moto/route53/responses.py:171-178 | once a prefix of the batch fails, the whole batch fails with the same error |
| Route53Responses.UpsertCountsTwice | moto/route53/responses.py:176-178 | an `UPSERT` counts each of its records twice, any other action once |
| Route53Responses.CheckChangeBatch | moto/route53/responses.py:165-181 | a missing change list is a `TypeError`; otherwise the loop's count is the batch's effective count, and the batch is refused with `InvalidChangeBatch` exactly when that count exceeds 1000 |
| Route53Responses.QuotaEdge | moto/route53/responses.py:168-180 | 1000 records created count exactly the limit and pass; 501 records upserted count 1002 and are refused |
| Route53Responses.ValidateResourceId | moto/route53/responses.py:415-425 | a `hostedzone` id longer than 32 characters is refused with the AWS message; any other id or resource type passes |
| Route53Responses.FullZonePathRefused | moto/route53/responses.py:415-425 | the full `/hostedzone/<id>` form of a 21-character zone id is 33 characters long and is refused |
| Route53Responses.TagList | moto/route53/responses.py:310 | one Key/Value entry per tag key, in the dictionary's order |
| Route53Responses.TagListOfEntries | moto/route53/responses.py:310 | the list built from some keys has one entry per key, in the keys' order, each with the key's value |
| Route53Responses.TagListRoundTrip | moto/route53/responses.py:310 | the Key/Value list read back is the tag dictionary |
| Route53Responses.TagDictOf | moto/route53/responses.py:310 | reading back the list of some keys gives exactly those keys, each with its value from the dictionary |
| Route53Responses.ListTagsForResource | moto/route53/responses.py:301-313 | the call fails exactly when the resource id is refused, with that error; otherwise it echoes the resource type and id and lists each stored tag as a Key/Value entry in the dictionary's order, one per key |
| Route53Responses.HostedZoneArgs | moto/route53/responses.py:22-45 | a missing name is a `TypeError` and an empty one an `IndexError`; otherwise the name ends in exactly one added `.` unless it had one, and the VPC id and region are passed only for a private zone |
| Route53Responses.WithTrailingDot | moto/route53/responses.py:34-35 | the name ends in `.`, is the given name followed by at most one added character, and is the given name unchanged exactly when that already ended in `.` |
| Route53Responses.HostedZoneNameStable | moto/route53/responses.py:34-35 | applying the trailing-dot rule to a name it produced changes nothing |
| Route53Responses.VpcOf | moto/route53/responses.py:55-56 | the VPC region and id are present exactly when the VPC entry holds them, with those values |
| Route53Responses.CreatedZoneResult | moto/route53/responses.py:46-62 | the zone itself, status `INSYNC`, no delegation set for a private zone, the first VPC only for a private zone that has one, and the zone's location URL |
| Route53Responses.GetHostedZoneResult | moto/route53/responses.py:96-106 | a public zone shows its delegation set and no VPCs, a private zone its VPCs and no delegation set |
| Route53Responses.ListHostedZonesResult | moto/route53/responses.py:64-77 | `MaxItems` defaults to 100 and the page is truncated exactly when the backend gave a next marker |
| Route53Responses.ListDelegationSetsResult | moto/route53/responses.py:381-391 | one page holding every delegation set, `MaxItems` 100, never truncated |
| Route53Responses.CheckRecordStart | moto/route53/responses.py:197-198 | a start record type without a start record name is refused with `InvalidInput` |
| Route53Responses.ListRecordSets | moto/route53/responses.py:191-218 | `MaxItems` defaults to 300, and the next record name and type are shown exactly when the page is truncated |
| Route53Responses.EffectiveCount | moto/route53/responses.py:170-178 | no contract of its own: the summed weights, which EffectiveCountAppend and EffectiveCountFails state and UpsertCountsTwice illustrates |
| Route53Responses.TagDict | moto/route53/responses.py:310 | no contract of its own: the reading of a Key/Value list back as a dictionary, the inverse in TagListRoundTrip |
| Routing.ValuesGet | moto/core/routing.py:59-60 | a value given as a query argument is the value found; otherwise a request other than GET falls back to the first form value, and a GET request finds nothing, since werkzeug's `values` then holds the query arguments only |
| Routing.HeaderGetMissing | moto/core/routing.py:68-69 | a header is missing exactly when no header has the name, compared without regard to case |
| Routing.HeaderGetFirst | moto/core/routing.py:68-69 | a header found is the value of the first header with the name |
| Routing.SelectAction | moto/core/routing.py:86-91 | no operation is selected exactly when no candidate has all its constraints accept the request; otherwise the operation of the first candidate that does |
| Routing.Translate | moto/core/routing.py:39-41 | the sanitised name holds no hyphen |
| Routing.PostProcessTranslate | moto/core/routing.py:157-174 | un-sanitising a sanitised name gives the name back when the name does not already hold the replacement text |
| Routing.TranslateHead | moto/core/routing.py:157-159 | sanitising never shortens a name and changes its first character only from a hyphen to an underscore |
| Routing.TranslateNotInjective | moto/core/routing.py:37-39 | two names share a sanitised form, so un-sanitising gets one of them wrong: the replacement text must not occur in request URIs |
| Routing.StripChar | moto/core/routing.py:152-154 | stripping a character leaves no such character at either end and never lengthens the text |
| Routing.TransformRoundTrip | moto/core/routing.py:136-174 | a placeholder becomes a rule variable that is greedy exactly when the name ends in +, and whose name un-sanitises to the placeholder's name |
| Routing.RuleVarOf | moto/core/routing.py:161 | a rule variable reads back as its name, greedy exactly when it carries the path: prefix |
| Routing.RuleStringPlain | moto/core/routing.py:371 | a path without braces is its own rule string |
| Routing.RuleStringPlaceholder | moto/core/routing.py:371 | each placeholder is replaced by its rule variable and the rest of the path is translated after it |
| Routing.RStripChar | moto/core/routing.py:221 | right-stripping gives a prefix that does not end in the character, all of whose removed characters were that character |
| Routing.OperationUri | moto/core/routing.py:219-223 | without an authPath and without a requestUri the operation is routed on / |
| Routing.NonBlank | moto/core/routing.py:238 | the values kept are exactly the non-empty ones, and no more than there were |
| Routing.MandatoryQuery | moto/core/routing.py:228-238 | a URI without ? has no mandatory query arguments, and no mandatory value is empty |
| Routing.RequiredArgs | moto/core/routing.py:240-256 | the required headers found extend those before, and query arguments the URI already requires keep their values |
| Routing.RequiredHeadersSound | moto/core/routing.py:243-249 | every header name added is that of a required header member |
| Routing.RequiredHeadersComplete | moto/core/routing.py:243-249 | the header name of every required header member is added |
| Routing.RequiredQuery | moto/core/routing.py:250-256 | the query names added are exactly those of the required query-string members the URI does not already require, each with no required values |
| Routing.HttpOperationOf | moto/core/routing.py:208-258 | the binding keeps the operation and its deprecation, the method defaults to POST, the path is the URI before its first ?, the URI's mandatory query arguments are kept, and an input that is not a structure requires no header |
| Routing.FromOperation | moto/core/routing.py:208-258 | the loop over the required members computes the binding specification |
| Routing.MakeRule | moto/core/routing.py:272-284 | a rule keeps the operation as endpoint and its required query arguments and headers |
| Routing.ScoreRanks | moto/core/routing.py:277-284 | one more required argument outweighs deprecation, between rules with as many required arguments the deprecated one scores lower, and every score is at least 5 |
| Routing.MatchesMonotone | moto/core/routing.py:286-310 | a request that matches a rule still matches it with more query values and more headers |
| Routing.InsertDesc | moto/core/routing.py:331 | inserting into a descending sequence keeps it descending and adds one rule |
| Routing.InsertDescPerm | moto/core/routing.py:331 | insertion adds the rule and loses none |
| Routing.SortDesc | moto/core/routing.py:331 | the rules sorted by descending score are a permutation of the rules |
| Routing.MatchRequest | moto/core/routing.py:333-345 | NotFound exactly when no rule matches; otherwise the first rule that matches |
| Routing.BestMatch | moto/core/routing.py:328-345 | on the sorted rules the rule found is one of the rules, matches, and scores highest among the rules that match |
| Routing.FirstMatchBest | moto/core/routing.py:342-344 | in a descending sequence no matching rule scores higher than the first one that matches |
| Routing.KeysOfMembers | moto/core/routing.py:358-361 | the keys of the path index are exactly the (path, method) pairs of the operations |
| Routing.KeysOfDistinct | moto/core/routing.py:358-361 | no key of the path index is listed twice |
| Routing.GroupOfMembers | moto/core/routing.py:358-361 | a group holds only operations of its own (path, method), and is empty exactly when the key is not in the index |
| Routing.GroupOperations | moto/core/routing.py:358-361 | the grouping loop builds the keys in first-seen order and, for every key, the operations with that path and method in order |
| Routing.IndexSnoc | moto/core/routing.py:359-361 | one more operation is appended to its own group only, and adds its key when it is new |
| Routing.IndexAdd | moto/core/routing.py:361 | an operation with a (path, method) seen before joins its group, last |
| Routing.IndexNew | moto/core/routing.py:361 | an operation with a new (path, method) opens a group of its own |
| Routing.BucketRules | moto/core/routing.py:383-397 | the extra rules of a /{Bucket} path match on the bucket subdomain and point at an operation, at most one per operation |
| Routing.ActionCandidates | moto/core/routing.py:424-429 | one candidate per operation, whose one constraint is that Action names the operation |
| Routing.TargetCandidates | moto/core/routing.py:449-460 | one candidate per operation, whose one constraint is that X-Amz-Target is the target prefix, a dot and the operation name |
| Routing.CreateServiceMap | moto/core/routing.py:348-489 | a service map has exactly the supported protocols, each with the rules of the operations' bindings grouped by path and method; it fails only when some binding fails |
| Routing.ServiceMap | moto/core/routing.py:363-489 | one rule list per supported protocol and no other |
| Routing.HttpOperations | moto/core/routing.py:354-361 | the bindings of the operations, one per operation in order; a failure comes from some operation's binding |
| Routing.GroupIndex | moto/core/routing.py:358-361 | the path index holds exactly the listed keys |
| Routing.RestGroupRules | moto/core/routing.py:373-405 | under a REST protocol a group of one operation gets a plain rule for it, a larger group one rule holding the score-sorted rules of all its operations |
| Routing.QueryGroupRules | moto/core/routing.py:423-436 | under the query and EC2 protocols a group accepts POST and GET and selects an operation exactly when the Action value names one of its operations, and then that one |
| Routing.JsonGroupRules | moto/core/routing.py:448-467 | under a JSON protocol a group keeps its method and the operation selected is the one X-Amz-Target names |
| Routing.JsonGroupHead | moto/core/routing.py:461-467 | the first rule of a JSON group selects among the target candidates |
| Routing.TargetSelected | moto/core/routing.py:449-467 | the operation selected among the target candidates is the one the X-Amz-Target header names |
| Routing.MatchSound | moto/core/routing.py:536 | a rule string that matches a path gives one value per variable, each fitting its variable, and the values rebuild the path |
| Routing.LazySound | moto/core/routing.py:183-194 | a greedy variable matches as little as it can, and what it matches, followed by the rest, rebuilds the path |
| Routing.MatchComplete | moto/core/routing.py:536 | a path built from fitting values always matches the rule string |
| Routing.LazyComplete | moto/core/routing.py:183-194 | a greedy variable ahead of tokens that match a suffix of the path always matches |
| Routing.NormalizedMethod | moto/core/routing.py:527 | OPTIONS is matched as GET and every other method as itself |
| Routing.FindRule | moto/core/routing.py:536-540 | no rule exactly when every rule has a subdomain, lacks the method, or does not match the path; otherwise a rule without subdomain that has the method and matches the path, with its values |
| Routing.RawArgsKeys | moto/core/routing.py:551 | the arguments of a selected action are keyed by exactly the rule's variable names |
| Routing.RawArgsLast | moto/core/routing.py:551 | each variable holds the value of its last occurrence |
| Routing.PostArgsKeys | moto/core/routing.py:556 | the post-processed arguments are keyed by exactly the un-sanitised variable names |
| Routing.PostArgsLast | moto/core/routing.py:556 | each un-sanitised name holds the unquoted value of its last occurrence |
| Routing.Dispatch | moto/core/routing.py:523-561 | every miss, of the path, the method, the fine-grained rule or the action, is NotFound |
| Routing.Match | moto/core/routing.py:512-561 | a missing protocol is a KeyError and it is the only KeyError; every other failure is NotFound |
| Routing.SelectActionReadsValues | moto/core/routing.py:86-91 | the action selected depends only on the request's values and headers: two requests whose `values` agree on every name and whose headers are equal select the same action |
| Routing.DispatchReadsValues | moto/core/routing.py:542-561 | the operation matched depends only on the method, the path, the query arguments, the request's values and its headers |
| Routing.MatchOptionsAsGet | moto/core/routing.py:524-527 | an OPTIONS request is matched against the rules with the method GET; it is routed exactly as the same GET request whenever each of its form names is also a query argument |
| Routing.RStripSlashes | moto/core/routing.py:534 | stripping trailing slashes from a path that ends in none gives it back |
| Routing.TrailingSlashIgnored | moto/core/routing.py:529-536 | trailing slashes do not change the route of a path that does not end in one |
| Routing.MatchFound | moto/core/routing.py:504-561 | a matched operation comes from a rule of the protocol that has the normalised method and matches the normalised path, and the arguments are named after that rule's variables, un-sanitised unless an action was selected |
| Routing.ParseQs | moto/core/routing.py:236-238 | parsing more pairs keeps every name seen and only appends to the values already collected under it |
| Routing.PlusToSpace | moto/core/routing.py:236 | every `+` becomes a space and every other character is kept, as `parse_qsl` does before unquoting |
| Routing.ParseQsPair | moto/core/routing.py:236 | one pair `name=value` gives the name, with `+` read as a space and then unquoted, holding the one value decoded the same way |
| Routing.RuleString | moto/core/routing.py:371 | no contract of its own: the rule-string rewrite that RuleStringPlain and RuleStringPlaceholder state |
| Routing.MatchTokens | moto/core/routing.py:536 | no contract of its own: the matcher that MatchSound and MatchComplete relate to the rule's variables |
| Routing.Matches | moto/core/routing.py:286-311 | no contract of its own: `_RequiredArgsRule.matches`, whose monotonicity MatchesMonotone states and which BestMatch and FirstMatchBest use to pick the best-scoring matching rule |
| Routing.TransformParam | moto/core/routing.py:136-161 | no contract of its own: `transform_path_params_to_rule_vars`, whose result TransformRoundTrip reads back as the original name and greediness and RuleStringPlaceholder places in the rule string |
| Routing.PostProcess | moto/core/routing.py:164-174 | no contract of its own: `post_process_arg_name`, which PostProcessTranslate proves inverts Translate on unambiguous names and TranslateNotInjective shows cannot invert it in general |
| Routing.HeaderGet | moto/core/routing.py:69 | no contract of its own: `Headers.get`, which HeaderGetMissing and HeaderGetFirst state (first header of the name, compared without regard to case) |
| Routing.Accepts | moto/core/routing.py:59-69 | no contract of its own: a constraint accepts exactly when the request value (ValuesGet) or the header (HeaderGet) equals its value; QueryGroupRules and TargetSelected state what it selects |
| Routing.GroupRules | moto/core/routing.py:368-480 | no contract of its own: the rules of one path and method group, which RestGroupRules, QueryGroupRules, JsonGroupRules and JsonGroupHead state per protocol |
| Routing.ProtocolRules | moto/core/routing.py:366-489 | no contract of its own: the group rules concatenated in group order, which ServiceMap and CreateServiceMap state |
| Routing.SupportedProtocols | moto/core/routing.py:365 | no contract of its own: the metadata's protocol list, else the service's one protocol; ServiceMap states that the map has exactly these keys |
| Routing.PrefixText | moto/core/routing.py:456 | no contract of its own: the f-string text of the target prefix (`None` when missing), which TargetCandidates and TargetSelected use |
| Routing.NormalizedPath | moto/core/routing.py:534 | no contract of its own: trailing slashes stripped from a path longer than one character; TrailingSlashIgnored and RStripSlashes state its effect on matching |
| Routing.RuleTokens | moto/core/routing.py:371 | no contract of its own: the rule string read as literal characters and variables, which MatchSound, MatchComplete and MatchFound relate to the matched path |
| Routing.MatchLazy | moto/core/routing.py:536 | no contract of its own: a greedy variable's shortest match, which LazySound and LazyComplete state |
| Routing.MatchSegment | moto/core/routing.py:536 | no contract of its own: a segment variable's match within one path segment, which MatchSound and MatchComplete cover |
| Routing.PostArgs | moto/core/routing.py:556 | no contract of its own: the post-processed, unquoted path arguments, which PostArgsKeys and PostArgsLast state |
| Routing.RawArgs | moto/core/routing.py:546-551 | no contract of its own: the raw rule arguments returned with a selected action, which RawArgsKeys and RawArgsLast state |
| Serialize.DefaultResponse | moto/motocore/serialize.py:102-113 | the default response has status 200, no headers and an empty body |
| Serialize.Base64 | moto/motocore/serialize.py:147-153 | bytes are base64-encoded as they are; a value that is neither bytes nor text raises TypeError |
| Serialize.PossibleKeys | moto/motocore/serialize.py:746-759 | the keys tried start with the transformed name and then the name itself |
| Serialize.FirstPresent | moto/motocore/serialize.py:729-744 | the value found is None exactly when no candidate key holds a non-None value; otherwise it is the value of one of the candidate keys |
| Serialize.Ser | moto/motocore/serialize.py:723-727 | a value writes nothing only when it is None and its shape is a structure |
| Serialize.ListItems | moto/motocore/serialize.py:788-799 | a list that serialises gives exactly one item per input item |
| Serialize.SerializeList | moto/motocore/serialize.py:788-799 | the list loop computes the list specification |
| Serialize.ListItemsStep | moto/motocore/serialize.py:795-799 | one loop step: an item that fails fails the list, an item that writes nothing raises KeyError, any other is appended |
| Serialize.MembersKeysWritten | moto/motocore/serialize.py:761-780 | every key a structure writes is a key it already held or the serialised name of a member whose value is not None |
| Serialize.MembersKeysKept | moto/motocore/serialize.py:761-780 | a structure keeps the keys it held and writes the serialised name of every member whose value is not None |
| Serialize.MemberKeyOrigin | moto/motocore/serialize.py:772-780 | a written key comes from the dict before the loop or from a member with a value |
| Serialize.MemberKeyKept | moto/motocore/serialize.py:772-780 | a key held before the loop is still held after it |
| Serialize.MemberKeyWritten | moto/motocore/serialize.py:772-780 | a member whose value is not None is written under its serialised name |
| Serialize.MembersReach | moto/motocore/serialize.py:772-780 | the loop's result from any member is the result from any later member with the dict built by then |
| Serialize.MemberKeyWrittenHere | moto/motocore/serialize.py:776-780 | the current member, when it has a value, is written under its serialised name |
| Serialize.MembersStep | moto/motocore/serialize.py:772-780 | a member without a value is skipped; a member with one is serialised and written under its serialised name |
| Serialize.BooleanSerialization | moto/motocore/serialize.py:804-805 | QueryJSON writes a boolean as a boolean; the other serializers write the text "true" or "false" |
| Serialize.BoolText | moto/motocore/serialize.py:804-805 | a boolean's lowered text is "true" or "false" |
| Serialize.ListNesting | moto/motocore/serialize.py:788-799 | the dict and Query serializers wrap the items in a dict under the member's serialised name; QueryJSON and JSON write the plain list |
| Serialize.NoneStructureItem | moto/motocore/serialize.py:795-799 | a None item of a structure list makes the list raise KeyError |
| Serialize.NoneItemFrom | moto/motocore/serialize.py:795-799 | from any point, a None structure item after items that write something makes the rest raise KeyError |
| Serialize.ErrorEnvelope | moto/motocore/serialize.py:661-682 | an unknown error shape gives status 400; the Query serializer wraps the error in ErrorResponse; the others write Error and RequestId, the request id being the response's |
| Serialize.SerializeToResponse | moto/motocore/serialize.py:684-712 | every response carries Content-Length equal to the body's length and the request id header; an error takes the envelope's status; a success has status 200 and the vary header |
| Serialize.ErrorStatusDefault | moto/motocore/serialize.py:661-679 | a known error shape gives its httpStatusCode, else 400, marks Sender exactly on a sender fault, and writes the shape's error code |
| Serialize.SuccessEnvelope | moto/motocore/serialize.py:696-710 | the success body holds only the operation's Response key; with a result wrapper, the members go under it beside the request id |
| Serialize.JsonListPlain | moto/motocore/serialize.py:902-912 | the JSON serializer writes a list as the plain list of its items |
| Serialize.MapEntries | moto/motocore/serialize.py:782-786 | a map serialises exactly when each of its values does; its keys are the keys whose values write something, each holding what its value writes; when values fail, the first failing key in the given key order decides the exception (MapEntriesFirstFailure shows that under an order listing each key once the fallback is never taken) |
| Serialize.FirstFailing | moto/motocore/serialize.py:785-786 | the first key, in the order given, whose value failed, with its error; none exactly when no listed key failed |
| Serialize.Iterated | moto/motocore/serialize.py:792 | the elements `for list_item in value` visits: a list's items, a string's one-character strings, a dict's keys in the given key order; nothing else is iterable (DictIterated: under an order listing each key once, each key exactly once) |
| Serialize.DictAsList | moto/motocore/serialize.py:788-799 | a dict given for a list of strings, under an order listing each of its keys once, serialises as the list of its keys in that order, one item per key and no key twice, nested under the member's name for the dict and Query serializers and plain for the others |
| Serialize.KeyOrderDistinct | moto/motocore/serialize.py:792 | an iteration order with as many entries as the dict has keys, holding exactly those keys, lists no key twice |
| Serialize.DictIterated | moto/motocore/serialize.py:792 | under an iteration order of its keys, a `for` loop over a dict visits as many elements as it has keys, every key and nothing else, none twice |
| Serialize.StringItems | moto/motocore/serialize.py:792-799 | text items of a list of strings are appended as they are, from any point of the loop on |
| Serialize.MapEntriesFirstFailure | moto/motocore/serialize.py:785-786 | under an iteration order of its keys, a map that fails raises the error of the first entry, in that order, whose value fails, every earlier entry serialising |
| Serialize.ErrorCode | moto/motocore/serialize.py:662-665 | not an exception shape gives None; an exception's code is its non-empty declared error code, else the shape's name |
| Serialize.Members | moto/motocore/serialize.py:761-780 | no contract of its own: the member loop that MembersKeysWritten, MembersKeysKept and MembersStep characterise |
| Shapes.MemberNamed | moto/core/model.py:51-53 | no member exactly when no member has the name; otherwise the shape of a member of that name |
| Shapes.IsFlattened | moto/core/model.py:25-27 | a shape is flattened exactly when its flattened trait is present and true |
| Shapes.HeaderTraitNotInBody | moto/core/model.py:29-35 | every header-bound member is also out of the body, and a member without a location is neither |
| Shapes.ErrorCodeAliases | moto/core/model.py:55-61 | a shape that is not an exception has no aliases; an exception has the codeAliases of its error metadata, none when they are absent |
| Shapes.GetShapeByName | moto/core/model.py:92-106 | an unknown name is NoShapeFound and a model without type is InvalidShape, the only failures; a resolved shape keeps its name, its class is the one the type names (structure, list, map or string) and the plain moto shape for any other type, and its model is the shape's own with the member traits laid over it |
| XmlDecode.SubNamespace | moto/core/parse.py:719 | a tag with no brace pair has no namespace and is left as it is |
| XmlDecode.TextContent | moto/core/parse.py:141-159 | an element gives its text, or the empty string when it has none; plain text is taken as it stands; a group of nodes has no text |
| XmlDecode.HandleScalar | moto/core/parse.py:836-862 | a JSON-value header's text goes through the header decoder and any other string gives its text; several string values are returned as the list of them; with several values a boolean is false and any other scalar raises TypeError |
| XmlDecode.AggregateSnoc | moto/core/parse.py:805-818 | adding one more child to the aggregation is the single-child step applied to the earlier result |
| XmlDecode.WithTag | moto/core/parse.py:806-807 | the children with a tag are children of the node, each carrying that tag |
| XmlDecode.AggregateGroup | moto/core/parse.py:804-819 | a tag is a key of the name-to-node dict exactly when some child carries it, and it maps to the group of those children in order: a single node, or a list of them once repeated |
| XmlDecode.AggregateGroups | moto/core/parse.py:798-819 | the same for every tag at once |
| XmlDecode.BuildNameToXmlNode | moto/core/parse.py:798-819 | the child loop computes the name-to-node specification, a list parent standing for its first element |
| XmlDecode.AddItem | moto/core/parse.py:806-818 | one child is added exactly as the aggregation step says: a new key, a pair from a single node, or one more at the end of a list |
| XmlDecode.MemberKeyName | moto/core/parse.py:784-796 | a flattened list whose member is named uses that name; otherwise the serialised name or the member name |
| XmlDecode.ListItems | moto/core/parse.py:745-753 | a header list given as text (the REST-XML override at parse.py:683-688) is split on commas and each part stripped; a flattened list given one node is the one-element list of that node; a list of nodes or of strings is never wrapped and gives its own items |
| XmlDecode.InitialBodyParse | moto/core/parse.py:874-877 | an empty body is an empty element with no tag; a body the XML parser refuses raises ResponseParserError |
| XmlDecode.ScalarText | moto/core/parse.py:836-862 | a boolean element is true exactly when its text is "true"; a string element that is not a JSON-value header gives its text, the empty string when it has none, and a JSON-value header element gives the header decoder's result on that text |
| XmlDecode.FlattenedSingle | moto/core/parse.py:727-753 | a flattened list or map given a single node decodes as if given the one-element list of it |
| XmlDecode.EmptyBodyDecoding | moto/core/parse.py:755-782 | the structure decoded from an empty body is the empty dict |
| XmlDecode.HandleInteger | moto/core/parse.py:852-854 | an integer exactly when the text is an integer literal, and then that integer; otherwise ValueError |
| XmlDecode.IntegerTextRoundTrip | moto/core/parse.py:852-854 | the text of any integer decodes back to that integer |
| XmlDecode.ParseShape | moto/core/parse.py:236-238 | no contract of its own: the dispatch on the shape's type that defines the XML decoding; HandleScalar, FlattenedSingle and EmptyBodyDecoding state what it yields |
| XmlDecode.HandleStructure | moto/core/parse.py:755-782 | no contract of its own: the structure decoding over the name-to-node dict that BuildNameToXmlNode and AggregateGroups characterise; EmptyBodyDecoding states its empty case |
| XmlDecode.HandleList | moto/core/parse.py:745-753 | no contract of its own: the list decoding, whose single-node flattened case FlattenedSingle states; ListItems states that a list of nodes or of strings is decoded item by item |
| XmlDecode.HandleMap | moto/core/parse.py:721-740 | no contract of its own: the map decoding, whose single-node flattened case FlattenedSingle states; like ListItems it wraps neither a list of nodes nor a list of strings |
| XmlSerialize.ArgItems | moto/motocore/serialize.py:600 | iterating a list gives its items; a dict gives one item per key; anything else raises TypeError |
| XmlSerialize.NamespaceAttrs | moto/motocore/serialize.py:569-574 | a structure without namespace gets no attribute; with one it gets exactly one, xmlns or xmlns:prefix when the prefix is non-empty, holding the namespace URI |
| XmlSerialize.ScalarNode | moto/motocore/serialize.py:621-644 | a scalar becomes one childless, attribute-free element of the given name holding text; a boolean's text is "true" exactly when the value is truthy, else "false"; only a blob can fail |
| XmlSerialize.Build | moto/motocore/serialize.py:560-564 | a shape that makes one element makes exactly one, with the given name |
| XmlSerialize.StructFields | moto/motocore/serialize.py:575-590 | the member loop keeps the element's tag and text, never drops an attribute, and only appends children |
| XmlSerialize.ListNodes | moto/motocore/serialize.py:600-601 | one element per item, each with the element name |
| XmlSerialize.Entries | moto/motocore/serialize.py:612-619 | one entry element per map entry, each holding a key element and a value element under their serialised names |
| XmlSerialize.BodyParams | moto/motocore/serialize.py:553-558 | a shape without a serialised name raises KeyError; otherwise the root element carries that name |
| XmlSerialize.SerializeStructure | moto/motocore/serialize.py:566-590 | the member loop computes the structure specification from the element with its namespace attribute |
| XmlSerialize.NoneStopsMembers | moto/motocore/serialize.py:582-584 | a member whose value is None ends the structure: the parameters after it are never written |
| XmlSerialize.AttributeStep | moto/motocore/serialize.py:585-589 | an attribute member is written as an attribute of the structure element under its serialised name |
| XmlSerialize.AttributesAddNoChildren | moto/motocore/serialize.py:585-589 | attribute members add no child element |
| XmlSerialize.AttributeAdded | moto/motocore/serialize.py:585-589 | every attribute member before a None value ends up in the element's attributes |
| XmlSerialize.ListLayout | moto/motocore/serialize.py:592-601 | a flattened list writes one element per item under the list's own name; otherwise one list element holds one child per item, named after the member or "member" |
| XmlSerialize.MapLayout | moto/motocore/serialize.py:603-619 | a map writes one element holding one entry per key, each with a key and a value child under their serialised names |

## Left out

- HTTP, sockets, the WSGI environment and `moto/core/request.py` are not part of this model: requests arrive as values.
- ElementTree, xmltodict, `json.loads` and `json.dumps` are replaced. Trees and JSON values are datatypes; producing text from them is an uninterpreted parameter.
- Base64, percent-encoding, unquoting and timestamp parsing and formatting are uninterpreted parameters, so no property depends on their output.
- `xform_name`, `pascal_to_camelcase`, `camelcase_to_underscores` and `parse_qsl` are abstract parameters. `is_json_value_header` is the predicate `Shapes.IsJsonValueHeader`. The base64 decoding, UTF-8 decoding and `json.loads` that a JSON-value header goes through form one abstract decoder, `Codecs.jsonValueHeader`, whose result or exception is passed on as it is.
- Floats are kept as their decimal text (`VFloat`), and no arithmetic is done on them. QueryDecode.HandleFloat, JsonDecode.HandleFloat and XmlDecode.HandleScalar accept any text as a float: the `ValueError` that `float()` raises on text that is not a number is not modelled.
- Strs.Lower, Strs.Upper and Strs.IsSpace know only ASCII: Lower and Upper map the letters `A`-`Z` and `a`-`z`, and IsSpace accepts exactly space, tab, newline, carriage return, vertical tab and form feed. Python's `lower()`, `upper()` and `isspace()` follow Unicode; `isspace()` also accepts the separators `\x1c`-`\x1f`, `\x85`, the no-break space and the other Unicode spaces. Strs.ParseInt accepts only ASCII digits after an optional sign, with ASCII white space around them, where `int()` also accepts underscores between digits and non-ASCII digits. Header-name matching, the `aws4-hmac-sha256` scheme check, boolean decoding and integer decoding inherit both restrictions.
- RdsSnapshot.NewSnapshot: uses the corrected identifier check `IsIdentifierValid`, so an empty manual identifier is refused with `InvalidDBSnapshotIdentifierValue`. The source's check raises `IndexError` for it instead; `RdsSnapshot.EmptyIdentifierRaises` models that, as the Findings table below says.
- `get_random_message_id`, `random_id`, `random_ip` and the Elastic IP generators are parameters. So are `utcnow` and `datetime.now`. The RDS event log is reduced to the events a call adds.
- `MAX_SHARED_ACCOUNTS` and `MOTO_RDS_SNAPSHOT_LIMIT` are read from the environment in the source. Here they are the constants 20 and 100. A value set in the environment would arrive as a string, and the source's integer comparison would then raise `TypeError`; that is not modelled.
- Routing.MatchTokens, Routing.FindRule, Routing.MatchRequest and Routing.Dispatch: Werkzeug's `Map`, `MapAdapter` and `Rule` are replaced by a token matcher. Werkzeug sorts rules by its own specificity; here they are tried in list order.
- Routing.FindRule and Routing.Dispatch: host and subdomain binding are not modelled, so rules with a subdomain never match.
- Routing.Dispatch and Routing.FindRule: `get_raw_path` is not modelled, so the request path is taken as the raw path. `determine_request_protocol` is not part of this model: the protocol is a parameter of `Routing.Match`.
- Routing.SortDesc: stability of the sort (rules of equal score keep their order) is not proved, only the descending order and the permutation.
- Routing.PostProcessTranslate: the round trip is proved under a slightly stronger condition than "no `_0_` in the name" (no `_0` before `_` or `-`). `Routing.TranslateNotInjective` shows why some condition is needed.
- Routing.HttpOperationOf, Routing.FromOperation and Routing.RequiredArgs: a required header or query-string member without a location name is a `MissingLocationName` failure; the source would store `None`.
- The routing examples at moto/core/routing.py:564-584 need the full `mq` and `s3` service models, which are not part of this model.
- QueryDecode.ProbeElements, QueryDecode.ProbeEntries, QueryDecode.ProbeList and QueryDecode.ListEnd: the source probes list and map indices in a `while True` loop that stops at the first index decoding to nothing. The model bounds the probe by `ProbeLimit`, the number of keys in the request, so it always stops. The source need not: a metadata default makes every index decode to something, and so does a flattened list whose member is a flattened list with a serialised name. The inner prefix replaces the last dotted part of the outer prefix by the inner name (moto/core/parse.py:305), which drops the outer index, so every outer element reads the same inner keys: with outer name `N` and inner name `Q`, the request `{"N.Q.1": "x"}` makes each outer element `N.i` decode `N.Q.1`. In such cases the source loops forever, where the model returns `ProbeLimit` elements.
- QueryDecode.ProbeMap: a map key that decodes to something other than a string raises `TypeError`, because a `Value` dict has string keys; Python would keep such a key.
- OldParsers.DecodeList: the Python set of list names is modelled as the list `[name, "member"]`, or `["member"]` when the name is `member`, so the set's iteration order is fixed.
- `CloudFormationPropertiesParser` and the base `RequestParser._handle_list` of moto/motocore/parsers.py are not modelled.
- In the older REST JSON parser, headers are an exact-key map.
- In the older JSON parser, iterating a dict as a list is a `TypeError`.
- JsonDecode.DecodeEntriesKeys and JsonDecode.MapDecoding assume a key shape that is not a JSON-value header; a key shape with that trait would send every key through the header decoder.
- XmlDecode.HandleScalar: a string shape given several elements raises `TypeError`; the source returns the list of elements, which is not a `Value`. Several plain strings are returned as their list, as in the source.
- OldParsers.ToInt: a float is cut at the decimal point of its text, so a float written with an exponent is refused with `ValueError` (`1e+20`) or cut wrongly (`1.5e+20` gives 1), where Python's `int()` converts its value.
- `print` calls in moto/motocore/awsrequest.py are left out: they write to standard output and change nothing.
- REST decoding matches the URI regular expressions with a segment matcher over literal and capture pieces. Regular-expression metacharacters in literal path segments are not interpreted.
- In REST decoding, `HeaderGet` compares header names exactly and the last header wins.
- `BaseRestSerializer.serialize_to_request` calls members that do not exist in the file, so only its helpers are modelled.
- `JSONSerializer.serialize_to_response` calls an undefined `_serialize_exception`, and its result-key search depends on Python class identity. Only its list rule is modelled (`Serialize.JsonListPlain`).
- Serialize.PossibleKeys: an object value that is not a dict has no attributes in the model. `getattr` lookups and the class-name aliases of `_get_possible_keys` are left out.
- Serialize.SerializeToResponse: the dict, Query and QueryJSON serializers only. The JSON serializer's entry point is left out, as described above.
- `moto/motocore/model.py`, `client.py`, `regions.py` and `compat.py` are not part of this model. Neither is the module-level `SERVICE_MODEL` of moto/dynamodb2/validate.py.
- DdbValidate.ValidateParameters and DdbValidate.Walk: the minimum checks inherited from botocore, the element walk of lists and the dispatch on the operation model are not modelled. The structure walk follows the check kept as a comment at moto/dynamodb2/validate.py:216-235.
- The DynamoDB visitor module is not part of this model. A validation is given as the sequence of callbacks the parallel visit makes.
- The DynamoDB item AST does not enforce Python dict key uniqueness on dict fields. `FDict` holds its entries in order and compares them in order, so DdbAst.NodeEqualsIff tells apart two dict-valued fields built in different orders, which Python's dict `==` does not. Item scalars are limited to strings, booleans and `None`; other values are shown through a `show` parameter.
- The KMS `describe_key` lookup in `copy_db_snapshot` is a may-fail parameter.
- The managed `InProgress`/`Deployed` status of a CloudFront distribution (`ManagedState.advance()`) is not modelled. The tagging service is not part of this model: the backend records the tag calls it makes.
- Redshift `create_tags` builds a case-insensitive dict; only its error cases are modelled.
- Handlers.FixEc2Result, Handlers.FixPollyResult, Handlers.FixEmrRequest, Handlers.ConvertActions, Handlers.RedshiftTagsCheck, Handlers.TagsDict and Handlers.FixSsmRequest: these result and request handlers raise `TypeError` whenever a field they iterate is not a list. Python instead iterates a dict's keys or a string's characters: an empty dict or string passes, and a non-empty one fails on its first item with `AttributeError` or `TypeError`. This concerns the availability-zone, Polly, SSM tag, EMR action and Redshift tag handlers.
- Handlers.FixPollyResult requires `xform_name` to be injective on the voice keys, which the source assumes implicitly.
- Handlers.FixSsmResult takes the order of the result's keys as a parameter, because a Python dict's order is not part of `Values.Value`.
- The Elastic IP `generic_filter` and describe filters, tags, `check_auto_public_ip`, and the `type_check` decorator are not modelled. An instance's network interfaces are given by its primary interface.
- Route53Responses.ValidateResourceId: a resource id is always a string. The source's `None` resource id, for which the length check raises `TypeError`, is not modelled.
- Route 53 backend operations are not part of this model: what they return arrives as a parameter.
- The medialive, mediapackage and EC2 AMI response modules are forwarding glue and are not part of this model. So are moto/route53/urls.py and the exception modules.
- The Step Functions Glue task polls a remote client and is not part of this model.
- Concurrency: the modelled code has none.

## Findings

| source | as written | input that shows it | evidently intended | confidence | as-written member | corrected member |
|---|---|---|---|---|---|---|
| moto/rds3/models/db_snapshot.py:43-57 | the identifier check reads the first character before testing the length, so an empty identifier raises IndexError | the identifier "" | an empty identifier is reported invalid | not executed | RdsSnapshot.EmptyIdentifierRaises | RdsSnapshot.IdentifierGrammar |
| moto/dynamodb2/validate.py:237-242 | a string longer than its maximum is reported with the reason `invalid length` and only `valid_max`, but formatting that reason reads `valid_range`, so the report raises KeyError | TableName "abcd" where the shape allows at most 3 characters | the message "Member must have length less than or equal to 3" | not executed | DdbValidate.OverlongStringRaises | DdbValidate.OverlongStringReported |
