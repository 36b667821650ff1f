# pykube manifest wizard — a Dafny model

pykube is an interactive command-line wizard. `generate --kind K` asks a
series of questions and writes one Kubernetes manifest: a Deployment
(`<name>_deploy.yaml`), a Service (`<name>_service.yaml`) or an Ingress
(`<name>_ingress.yaml`). The repository holds two copies of the wizard:
`pykubeyaml.py`, which has all three flows, and `pykube.py`, the short copy that the unit
tests import. The short copy has only the deployment flow.

This project models the pure core of both copies:

- the answer validators `is_null` and `is_number`, and `int()` on answer tokens;
- the space tokenizer `str2list`;
- `dict(zip(keys, values))` on token lists;
- how a yes/no answer is read: by its first token;
- the deployment, service and ingress flows, each from typed answers to the
  manifest and file name, or to the reason the flow stops;
- the `generate` dispatch in both copies.

The model is laid out as follows:

- `results.dfy`: `Option` and `Result`.
- `tokens.dfy`: `str2list`, with `split(' ')` as `Pieces` and `' '.join` as `Join`.
- `validators.dfy`: `is_null`, `is_number`, `int()`.
- `pairing.dfy`: `dict(zip(...))`.
- `manifests.dfy`: typed manifests. A YAML key the wizard may leave out is an `Option` field.
- `wizard.dfy`: the reasons a flow stops, and yes/no answers.
- `deploy.dfy`: the deployment flow shared by both copies. Host volumes are a parameter, because that is where the copies differ.
- `pykubeyaml.dfy`: the complete copy.
- `pykube.dfy`: the short copy.
- `wizard_examples.dfy`: worked examples with concrete answers.

The user's answers are inputs. Each answer a prompt validator checks is
given as a precondition (`Valid`, `ValidService`, `ValidIngress`): a
prompt re-asks until its validator accepts. Such a precondition only covers
the prompts the flow actually reaches.

When a check fails, the source prints a message and then either stops
through `click.Context.exit(0)` or, for a deployment's label mismatch,
returns. In both cases no file is written, and the model returns
`Abort(reason)`. A blank yes/no answer makes `str2list(answer)[0]` raise
`IndexError`. The model returns `Abort(NoChoiceToken)` for it.

Two details of the code worth stating plainly: `is_null` does not trim,
so an answer of one space is accepted; and the deployment file is
`<name>_deploy.yaml`.

## Model

| member | source | states |
|---|---|---|
| Tokens.Pieces | pykubeyaml.py:55 | `split(' ')` always yields at least one piece, and no piece contains a space |
| Tokens.RemoveEmpty | pykubeyaml.py:56-57 | no empty string is left, and every string kept comes from the input |
| Tokens.RemoveEmptyCounts | pykubeyaml.py:56-57 | removing empty strings keeps every non-empty string as many times as it occurs and drops every empty one (a multiset equality) |
| Tokens.RemoveEmptyDropsEmpty | pykubeyaml.py:57 | `remove('')` of one empty string does not change the tokens finally kept |
| Tokens.RemoveEmptyKeeps | pykubeyaml.py:56 | when no `''` is left, the list is the final token list |
| Tokens.Str2List | pykubeyaml.py:54-58 | every token `str2list` returns is non-empty and has no space |
| Tokens.Str2ListLoop | pykubeyaml.py:54-58 | the `while '' in str_list: str_list.remove('')` loop as written returns the same list as the reference `Str2List` |
| Tokens.PiecesOfJoin | pykubeyaml.py:55 | `split(' ')` inverts `' '.join` on spaceless pieces |
| Tokens.JoinOfPieces | pykubeyaml.py:55 | `' '.join` inverts `split(' ')`: the pieces and the spaces between them are the original string |
| Tokens.Str2ListOfJoin | pykubeyaml.py:54-58 | joining well-formed tokens with single spaces and tokenizing again gives the same tokens |
| Tokens.Str2ListIdempotent | pykube.py:53-57 | tokenizing, re-joining with single spaces and tokenizing again gives the first result |
| Tokens.NoTokensIffBlank | pykubeyaml.py:54-58 | an answer yields no token exactly when it is empty or all spaces |
| Tokens.Str2ListCollapsesSpaces | test_pykube.py:18-21 | `str2list('a    b  c ')` is `['a', 'b', 'c']` |
| Tokens.Str2ListKeepsTabs | pykubeyaml.py:55 | only `' '` separates tokens: `'a\tb'` is one token |
| Validators.IsNullAccepts | pykubeyaml.py:31-35 | `is_null` accepts exactly the non-empty answers: `''` is rejected; `'right'` and `' '` are accepted |
| Validators.IsNumberExamples | test_pykube.py:11-15 | `is_number` rejects `'e'`, `''`, `' 80'` and `'-1'` and accepts `'1994'`, whose value is 1994 |
| Validators.IsNull | pykubeyaml.py:31-35 | `is_null`: an answer is accepted when it is non-empty; nothing is trimmed |
| Validators.IsNumber | pykubeyaml.py:39-40 | `is_number`: `isdigit()`, true on non-empty strings of digits only |
| Validators.DigitsValue | pykubeyaml.py:85 | the value `int()` gives a digit string; a string of n digits is worth less than ten to the n |
| Validators.ParseInt | pykubeyaml.py:105-110 | `int(token)` succeeds exactly on digit strings, and then gives the token's decimal value |
| Validators.ParseInts | pykubeyaml.py:219-224 | `list(map(int, tokens))` succeeds exactly when every token is a digit string, and then gives one value per token, in order |
| Pairing.ZipMap | pykubeyaml.py:96 | `dict(zip(keys, values))` has exactly the keys of the list; for each key, the value paired with its last occurrence |
| Pairing.ZipMapDistinct | pykubeyaml.py:204 | with distinct keys every pair is kept, and the map has one entry per pair |
| Pairing.ZipMapValues | pykubeyaml.py:236 | the value of every listed key is the value paired with its last occurrence |
| Pairing.ZipMapLastWins | pykube.py:95 | label keys `app app` with values `a b` give the single label `app: b` |
| Wizard.ReadChoice | pykubeyaml.py:114-115 | a yes/no answer means yes exactly when its first token is `yes`; it has no token exactly when it is blank |
| Wizard.ReadChoiceFirstToken | pykubeyaml.py:127-128 | leading spaces are skipped: `'  yes no'` means yes |
| Wizard.ReadChoiceLaterYes | pykubeyaml.py:197-198 | only the first token counts: `'no yes'` means no |
| Wizard.ReadChoiceExact | pykube.py:113-114 | `'yes'` means yes; `'Yes'` means no; `'   '` has no token |
| Deploy.ContainerPorts | pykubeyaml.py:104-111 | the port list has one `{containerPort: int(token), protocol: TCP}` per token, in order; any non-integer token stops the flow |
| Deploy.EnvBlock | pykubeyaml.py:114-126 | `env` is present exactly when the answer says yes, and then pairs name k with value k; a blank answer or a count mismatch stops the flow |
| Deploy.VolumeBlock | pykubeyaml.py:127-152 | `volumeMounts` and host volumes are present exactly when the answer says yes; mount k pairs name k with path k; a blank answer or a count mismatch stops the flow |
| Deploy.RestartPolicy | pykubeyaml.py:156-158 | `restartPolicy` is set, to `Always`, exactly when the answer is `yes` |
| Deploy.AssembleDeploy | pykubeyaml.py:61-163 | the deployment flow succeeds exactly when every check passes, and stops at the first check that fails, with that check's reason. On success it gives the file name, replicas, labels, the single container with its ports, env and mounts, the host volumes, and `restartPolicy: Always` exactly when the answer is `yes` |
| PykubeYaml.ZippedHostVolumes | pykubeyaml.py:147-152 | one host volume per volume name; volume k has name k, path k and the one host path type |
| PykubeYaml.GenerateDeploy | pykubeyaml.py:142-152 | host volume k is named and placed like volume mount k: `hostPath.path` is volume path k |
| PykubeYaml.ServiceLabels | pykubeyaml.py:197-204 | service labels are present exactly when the answer says yes, and then are the zipped keys and values; a blank answer or a count mismatch stops the flow |
| PykubeYaml.GenerateService | pykubeyaml.py:175-241 | the service flow succeeds exactly when every check passes, and gives the stopping reason in check order. On success: file `<name>_service.yaml`; labels present exactly when the answer says yes; port entry i pairs service port i with container port i; the selector is the zipped deployment labels |
| PykubeYaml.ServiceSelectsDeployment | pykubeyaml.py:229-236 | for all answers: when the service's selector answers are a deployment's label answers and both flows succeed, the selector equals the labels of that deployment's pods |
| PykubeYaml.RulePaths | pykubeyaml.py:284-291 | one path entry per path token, in order, with path j's service name and the value of its port |
| PykubeYaml.GenerateIngress | pykubeyaml.py:253-297 | the ingress flow never stops. It gives one rule per host token, in order. Under each rule there is one path entry per path token, with that path's service name and port |
| PykubeYaml.IngressRecoversAnswers | pykubeyaml.py:279-292 | for all valid answers: the rules' hosts are the host answer's tokens and each rule's paths are that host's path tokens, so re-joining and tokenizing gives the answers' tokens back |
| PykubeYaml.Generate | pykubeyaml.py:18-27 | the manifest is the one the flow chosen by `--kind` builds, and a stop carries that flow's reason; each flow succeeds exactly when its checks pass; the file name carries the kind's suffix |
| Pykube.WholeListHostVolumes | pykube.py:146-151 | as written: one host volume per volume name; volume k has name k, the whole list of paths as its path, and the host path type |
| Pykube.GenerateDeploy | pykube.py:60-164 | as written, every host volume gets the whole list of volume paths as its path; the checks and the file name are those of the complete copy |
| Pykube.Generate | pykube.py:18-26 | `service` and `ingress` produce nothing; `deployment` succeeds exactly when its checks pass, gives the deployment flow's output, and otherwise stops with that flow's reason |
| Pykube.HostPathsAgainstZipped | pykube.py:146-151 | for accepted answers with volumes, the two copies agree on containers, labels, replicas and restart policy. Host volume k of the short copy carries the whole path list, and item k of that list is the path the complete copy gives |
| Pykube.CopiesStopAlike | pykube.py:92-135 | for all answers the flow rejects, both copies stop, and for the same reason |
| Pykube.CopiesAgreeWithoutVolumes | pykube.py:126-157 | for all accepted answers without volumes, the copies agree on file name, name, replicas, labels, containers and restart policy, and neither has host volumes |
| Pykube.HostPathCounterexample | pykube.py:149-151 | for volumes `a b` at `/x /y`, the short copy gives the first volume the path `['/x', '/y']`; the complete copy gives it `/x` |
| WizardExamples.WebAnswersAccepted | pykubeyaml.py:80-156 | a complete set of deployment answers passes every validator and every check |
| WizardExamples.DeployExample | pykubeyaml.py:72-163 | those answers produce exactly the expected deployment in `web_deploy.yaml` |
| WizardExamples.ServicePortMismatchExample | pykubeyaml.py:210-215 | two service ports against one container port stop the service flow |
| WizardExamples.SiteAnswersValid | pykubeyaml.py:279-289 | two hosts with one path each are answers the ingress questions can produce |
| WizardExamples.IngressExample | pykubeyaml.py:265-297 | hosts `a.com b.com` give two rules; under `a.com` the path `/x` goes to `svc:80`; the file is `site_ingress.yaml` |

## Left out

- Prompting is not modelled: the terminal, the re-asking until a validator accepts, and the host path type's word completion. Answers are inputs, and a validator's guarantee is a precondition.
- The `click` command line is not modelled, including its rejection of a `--kind` outside the three choices. `IsKind` is a precondition instead. Exit codes are not modelled either.
- YAML serialization is not modelled: `yaml.dump`, the key order, and the output layout. This includes `pykube.py`'s `yaml.dump_all` applied to a dict, which serializes the dict's keys rather than the manifest. The model stops at the typed manifest.
- Opening and writing the file, and the printed progress and `scp`/`kubectl` hints, are I/O. They are not modelled.
- Validators.IsNumber: Python's `str.isdigit()` also accepts non-ASCII digit characters; the model accepts only `'0'`..`'9'`. A replica answer (pykubeyaml.py:84-85) or an ingress service port answer (pykubeyaml.py:289-291) such as `'²'` passes `isdigit()`, and then `int()` raises an uncaught error. That crash is not modelled, so "the ingress flow never stops" holds of the model only.
- Validators.ParseInt: Python's `int()` also accepts a sign, surrounding tabs or newlines, `_` separators, and non-ASCII decimal digits such as `'٣'`. The model accepts only ASCII digit strings, so a port token such as `-1` or `+80` stops the model's flow but is accepted by the source.
- Validators.ParseInts: inherits the `ParseInt` restriction above, since it applies `ParseInt` to every token.
- Deploy.ContainerPorts: inherits the `ParseInt` restriction above, so negative or signed container ports are not modelled.
- PykubeYaml.GenerateService: inherits the `ParseInt` restriction above. A selector count mismatch has its own reason, `SelectorCountMismatch`, although the source prints the same message as for a label mismatch.
- The ingress flow prints the position of each host and path with `list.index`. That position is wrong for repeated tokens, but it is only a message and is not modelled.
- `setup.py` packaging is not part of this model.

## Findings

| source | as written | input that shows it | evidently intended | confidence | as-written member | corrected member |
|---|---|---|---|---|---|---|
| pykube.py:151 | each host volume gets `"path": host_volume_path`, the whole list of volume paths | volume names `a b`, volume paths `/x /y`: volume `a` gets path `['/x', '/y']` | `host_volume_path[l]`, as in pykubeyaml.py:152, so that volume `a` gets `/x` | high, not executed | Pykube.HostPathCounterexample | PykubeYaml.GenerateDeploy |
