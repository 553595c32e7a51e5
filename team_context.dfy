/** The prompt material built from a team's inputs: `buildTeamContext`,
    which concatenates the project goal, the uploaded files and the pasted
    code into one text block, and `getBaseSystemPersona`, which picks the
    system persona for a team. */
module TeamContext {
  import opened Text
  import opened Teams

  /** The `type` an uploaded file is tagged with: 'json' or 'text'. */
  datatype FileKind = Json | PlainText

  datatype UploadedFile = UploadedFile(name: string, content: string, kind: FileKind)

  /** The team data handed to the prompt builder. An absent or empty
      `description` or `pastedCode` is the empty string: both are falsy. */
  datatype TeamData = TeamData(description: string, uploadedFiles: seq<UploadedFile>, pastedCode: string)

  const DescriptionTitle := "**Objetivo do Projeto:**\n"
  const FilesTitle := "**Arquivos de Contexto Anexados:**\n"
  const PastedCodeTitle := "**Código Colado Manualmente:**\n"
  const NoContext := "Sem contexto técnico adicional."
  const JsonFenceOpen := "```json\n"
  const JsonFenceClose := "\n```\n\n"

  /** The lines written for one uploaded file: a header naming it, then its
      content, inside a json fence when the file is tagged 'json'. */
  function FileBlock(f: UploadedFile): string {
    "--- ARQUIVO: " + f.name + " ---\n"
    + (if f.kind == Json then JsonFenceOpen + f.content + JsonFenceClose else f.content + "\n\n")
  }

  /** The blocks of `files`, in order. */
  function FileBlocks(files: seq<UploadedFile>): string {
    if files == [] then "" else FileBlocks(files[..|files| - 1]) + FileBlock(files[|files| - 1])
  }

  function DescriptionSection(t: TeamData): string {
    if t.description != "" then DescriptionTitle + t.description + "\n\n" else ""
  }

  function FilesSection(t: TeamData): string {
    if |t.uploadedFiles| > 0 then FilesTitle + FileBlocks(t.uploadedFiles) else ""
  }

  function PastedCodeSection(t: TeamData): string {
    if t.pastedCode != "" then PastedCodeTitle + t.pastedCode + "\n\n" else ""
  }

  /** The text `buildTeamContext` returns: the three sections in order, or
      the fixed fallback sentence when all of them are empty. */
  function Context(t: TeamData): string {
    var sections := DescriptionSection(t) + FilesSection(t) + PastedCodeSection(t);
    if sections == "" then NoContext else sections
  }

  /** `buildTeamContext`: appends each present section to an accumulator,
      one file block per uploaded file. */
  method BuildTeamContext(t: TeamData) returns (context: string)
    ensures context == Context(t)
  {
    context := "";
    if t.description != "" {
      context := context + DescriptionTitle + t.description + "\n\n";
    }
    assert context == DescriptionSection(t);
    if |t.uploadedFiles| > 0 {
      context := context + FilesTitle;
      context := AppendFileBlocks(context, t.uploadedFiles);
      Associate(DescriptionSection(t), FilesTitle, FileBlocks(t.uploadedFiles));
    }
    assert context == DescriptionSection(t) + FilesSection(t);
    if t.pastedCode != "" {
      context := context + PastedCodeTitle + t.pastedCode + "\n\n";
    }
    assert context == DescriptionSection(t) + FilesSection(t) + PastedCodeSection(t);
    if context == "" {
      context := NoContext;
    }
  }

  /** The `forEach` over the uploaded files. */
  method AppendFileBlocks(start: string, files: seq<UploadedFile>) returns (context: string)
    ensures context == start + FileBlocks(files)
  {
    context := start;
    for i := 0 to |files|
      invariant context == start + FileBlocks(files[..i])
    {
      assert files[..i + 1][..i] == files[..i];
      Associate(start, FileBlocks(files[..i]), FileBlock(files[i]));
      context := context + FileBlock(files[i]);
    }
    assert files[..|files|] == files;
  }

  /** Every non-empty section begins with the '*' of its bold title. */
  lemma SectionsStartWithStar(t: TeamData)
    ensures var s := DescriptionSection(t) + FilesSection(t) + PastedCodeSection(t);
      s != "" ==> s[0] == '*'
  {
  }

  /** The fallback sentence is returned exactly when there is no
      description, no uploaded file and no pasted code. */
  lemma FallbackIff(t: TeamData)
    ensures Context(t) == NoContext <==> (t.description == "" && t.uploadedFiles == [] && t.pastedCode == "")
  {
    SectionsStartWithStar(t);
    assert NoContext[0] == 'S';
  }

  /** With a description, the context opens with the goal section. */
  lemma DescriptionComesFirst(t: TeamData)
    requires t.description != ""
    ensures StartsWith(Context(t), DescriptionTitle + t.description + "\n\n")
  {
    var d := DescriptionTitle + t.description + "\n\n";
    var rest := FilesSection(t) + PastedCodeSection(t);
    assert Context(t) == d + rest;
    assert (d + rest)[..|d|] == d;
  }

  /** With pasted code, the context closes with the pasted-code section. */
  lemma PastedCodeComesLast(t: TeamData)
    requires t.pastedCode != ""
    ensures EndsWith(Context(t), PastedCodeTitle + t.pastedCode + "\n\n")
  {
    var c := PastedCodeTitle + t.pastedCode + "\n\n";
    var front := DescriptionSection(t) + FilesSection(t);
    assert Context(t) == front + c;
    assert (front + c)[|front|..] == c;
  }

  /** With files, the files section sits right after the goal section (if
      any), and it is the title followed by one block per file, in order. */
  lemma FilesFollowDescription(t: TeamData)
    requires t.uploadedFiles != []
    ensures StartsWith(Context(t), DescriptionSection(t) + FilesTitle + FileBlocks(t.uploadedFiles))
  {
    var front := DescriptionSection(t) + FilesTitle + FileBlocks(t.uploadedFiles);
    var c := PastedCodeSection(t);
    assert Context(t) == front + c;
    assert (front + c)[..|front|] == front;
  }

  /** The file blocks are the blocks of the files one after the other:
      splitting the file list splits the text at the same place. */
  lemma {:induction false} FileBlocksAppend(xs: seq<UploadedFile>, ys: seq<UploadedFile>)
    ensures FileBlocks(xs + ys) == FileBlocks(xs) + FileBlocks(ys)
    decreases |ys|
  {
    if ys == [] {
      assert xs + ys == xs;
    } else {
      var init := ys[..|ys| - 1];
      var last := ys[|ys| - 1];
      var all := xs + ys;
      assert all[..|all| - 1] == xs + init && all[|all| - 1] == last;
      assert FileBlocks(all) == FileBlocks(xs + init) + FileBlock(last);
      FileBlocksAppend(xs, init);
      Associate(FileBlocks(xs), FileBlocks(init), FileBlock(last));
      assert FileBlocks(ys) == FileBlocks(init) + FileBlock(last);
    }
  }

  /** A 'json' file's content appears inside a json fence; any other
      file's content appears as it is, followed by a blank line. */
  lemma FileBlockWrapsJson(f: UploadedFile)
    ensures f.kind == Json ==> EndsWith(FileBlock(f), JsonFenceOpen + f.content + JsonFenceClose)
    ensures f.kind == PlainText ==> EndsWith(FileBlock(f), f.content + "\n\n")
    ensures StartsWith(FileBlock(f), "--- ARQUIVO: " + f.name + " ---\n")
  {
    var head := "--- ARQUIVO: " + f.name + " ---\n";
    var body := if f.kind == Json then JsonFenceOpen + f.content + JsonFenceClose else f.content + "\n\n";
    assert FileBlock(f) == head + body;
    assert (head + body)[..|head|] == head;
    assert (head + body)[|head|..] == body;
  }

  /** The instruction every persona ends with. */
  const BaseInstruction := "Sua tarefa é criar a documentação mais detalhada e concisa possível, exclusivamente em Português do Brasil. Estruture suas respostas em parágrafos bem escritos e explicativos. Use blocos de código markdown com a linguagem correta."

  const DevelopersRole := "Você é um Arquiteto de Software Sênior. Analise o código fornecido profundamente, considerando padrões de design, segurança e escalabilidade. Use a ferramenta de busca para validar versões de pacotes e APIs externas. "
  const UXUIRole := "Você é um Product Designer especialista em UX/UI. Analise fluxos e componentes sob a ótica da usabilidade e acessibilidade. "
  const AutomationsRole := "Você é um Arquiteto de Automação (RPA/Integrations). Explique fluxos lógicos, tratamentos de erro e payloads. "
  const AIRole := "Você é um Engenheiro de IA especialista em Sistemas de Agentes. Detalhe prompts de sistema, ferramentas e guardrails. "
  const DefaultRole := "Você é um Consultor Técnico Sênior especialista em documentação. "

  function Role(team: string): string {
    match ParseTeam(team)
    case Some(Developers) => DevelopersRole
    case Some(UXUI) => UXUIRole
    case Some(Automations) => AutomationsRole
    case Some(AI) => AIRole
    case None => DefaultRole
  }

  /** `getBaseSystemPersona(team)`: the role text of the team, or the
      generic consultant for any other string, then the base instruction. */
  function Persona(team: string): string {
    Role(team) + BaseInstruction
  }

  /** Every persona, the default one included, ends with the base
      instruction. */
  lemma PersonaEndsWithBase(team: string)
    ensures EndsWith(Persona(team), BaseInstruction)
  {
    var r := Role(team);
    assert (r + BaseInstruction)[|r|..] == BaseInstruction;
  }

  /** The generic persona is given exactly to the strings that are not a
      team, and different teams get different personas. */
  lemma PersonaDefaultIff(team: string)
    ensures Persona(team) == DefaultRole + BaseInstruction <==> ParseTeam(team).None?
  {
    if ParseTeam(team).Some? {
      assert |Role(team)| != |DefaultRole|;
      assert |Persona(team)| != |DefaultRole + BaseInstruction|;
    }
  }

  lemma PersonasDiffer(a: Team, b: Team)
    requires a != b
    ensures Persona(TeamName(a)) != Persona(TeamName(b))
  {
    ParseTeamName(a);
    ParseTeamName(b);
    assert |Role(TeamName(a))| != |Role(TeamName(b))|;
  }
}
