# Gestión FCT — a verified model of the placement core

Gestión FCT is a desktop application (Spring and JavaFX) for a vocational
school. It assigns students to work placements (FCT, *Formación en Centro
de Trabajo*) at companies. Each placement has a company tutor and an
academic period. The application tracks the placement's hours and its
uploaded documents.

This project models the core of that application in Dafny and proves
properties of the model:

- **Entities** (`modelo.dfy`, module `Modelo`): the JPA entities are
  classes whose fields the methods update in place:
  - `FCT`, `Estudiante`, `Empresa`, `TutorEmpresa`, `Periodo`,
    `CursoAcademico`, `Documento` and `Usuario`;
  - their constructors and default values;
  - the placement lifecycle `finalizar` and `cancelar`;
  - the document attach and detach operations with back-references;
  - the `toString` and derived-text methods.
- **Derived values** (`valores.dfy`, module `Valores`): the enumerations,
  the completion percentage as an exact real, the full address, the period
  description, file extensions, size units and the cancellation note.
- **Error taxonomy** (`excepciones.dfy`, module `Excepciones`): the five
  exception classes as one datatype with their codes, message formats and
  factories. Each formatted message comes with a reader that recovers its
  arguments.
- **Services**:
  - `cursos.dfy`: the academic-year activation sweep, a loop with its
    invariant;
  - `estudiantes.dfy`: student validation, saving, lookup, ordering and
    search;
  - `usuarios.dfy`: the session holder, i.e. login, logout and the current
    user.
- **Controller rules**: the rule blocks inside the three management
  screens, extracted as functions and methods over an in-memory store (a
  sequence of objects):
  - `asignacion.dfy`: placements;
  - `empresas.dfy`: companies;
  - `documentos.dfy`: documents.
- **Library behaviour the code relies on** (`base.dfy`, `texto.dfy`,
  `fechas.dfy`): Java's `null`-to-`"null"` concatenation, `String.trim`,
  `toLowerCase` and `toUpperCase`, `contains` and `lastIndexOf`, the
  e-mail regular expression, and the ISO form of a date.

How Java values are represented:

- A nullable field or result is represented by `Option`, and a nullable
  object reference by a `C?` class type.
- The clock (`LocalDateTime.now()`) is a parameter `ahora`.
- The random prefix of a stored file name is a parameter `prefijoUnico`.
- The stored collections of the repositories are sequences of objects.

Where the code and its documented intent differ, the model follows the
code:

- `finalizar` and `cancelar` do not look at the current state. Only the
  buttons of the placement screen restrict them to ACTIVA placements
  (`Modelo.CancelarTrasFinalizar`, `AsignarFct.EstadoBotones`).
- The duplicate check for a new placement ignores the state of the
  existing one. A CANCELADA placement therefore still blocks a new one for
  the same student and period, while `Estudiante.tieneFctEnPeriodo`
  disregards it (`AsignarFct.CanceladaBloqueaNueva`).
- Nothing checks that the chosen tutor belongs to the chosen company, or
  that a period starts before it ends.
- The student service checks the e-mail format on the untrimmed text, so
  an address with leading blanks passes the presence check and fails the
  format check (`EstudianteServicio.EmailConEspacioInvalido`). The company
  dialog checks the trimmed text.
- The progress column of the placement table and
  `FCT.getPorcentajeCompletado` disagree for a negative total
  (`Valores.ProgresoColumnaComoPorcentaje`).

## Model

Source paths are relative to the repository root.

| member | source | states |
|---|---|---|
| Base.Str | src/main/java/com/adrian/gestionfct/modelo/Estudiante.java:213-216 | string concatenation renders a present value as itself and a null one as "null" |
| Base.FirstIndex | src/main/java/com/adrian/gestionfct/modelo/FCT.java:220-223 | the index found holds the element and no earlier position does |
| Base.RemoveFirst | src/main/java/com/adrian/gestionfct/modelo/FCT.java:220-223 | removing an element that is absent leaves the list unchanged, and removing one that is present cuts out exactly its first occurrence, so the multiset loses one copy |
| Texto.ToLower | src/main/java/com/adrian/gestionfct/controller/AsignarFCTController.java:220 | lower-casing keeps the length and maps every character independently |
| Texto.ToUpper | src/main/java/com/adrian/gestionfct/controller/EmpresaController.java:402 | upper-casing keeps the length and maps every character independently |
| Texto.ToUpperIdempotent | src/main/java/com/adrian/gestionfct/controller/EmpresaController.java:402 | upper-casing twice is upper-casing once |
| Texto.ToLowerIdempotent | src/main/java/com/adrian/gestionfct/controller/AsignarFCTController.java:220 | lower-casing twice is lower-casing once |
| Texto.TrimEmptyIffBlank | src/main/java/com/adrian/gestionfct/controller/EmpresaController.java:401-410 | trim() is empty exactly when every character is a space or control character (at most U+0020) |
| Texto.TrimmedEdges | src/main/java/com/adrian/gestionfct/controller/EmpresaController.java:401-403 | a non-empty trimmed text starts and ends with a character above U+0020 |
| Texto.TrimIdempotent | src/main/java/com/adrian/gestionfct/controller/EmpresaController.java:401-403 | trimming twice is trimming once |
| Texto.ToLowerTrim | src/main/java/com/adrian/gestionfct/controller/AsignarFCTController.java:220 | lower-casing and trimming commute |
| Texto.ToUpperTrim | src/main/java/com/adrian/gestionfct/controller/EmpresaController.java:402 | upper-casing and trimming commute |
| Texto.Contains | src/main/java/com/adrian/gestionfct/controller/AsignarFCTController.java:233-239 | String.contains holds exactly when the needle is a prefix of some suffix of the text |
| Texto.ContainsEmpty | src/main/java/com/adrian/gestionfct/controller/AsignarFCTController.java:233-239 | every text contains the empty text |
| Texto.LastIndexOf | src/main/java/com/adrian/gestionfct/modelo/Documento.java:172-175 | -1 exactly when the character is absent; otherwise its position, with no later occurrence |
| Texto.NatToString | src/main/java/com/adrian/gestionfct/modelo/Documento.java:164-165 | the decimal text of a non-negative number is non-empty, all digits and without a leading zero |
| Texto.NatToStringRoundTrip | src/main/java/com/adrian/gestionfct/modelo/Documento.java:164-165 | reading the digits back gives the number |
| Texto.IntToString | src/main/java/com/adrian/gestionfct/modelo/Documento.java:164-165 | a negative number prints as "-" followed by the digits of its magnitude |
| Texto.IsValidEmailMatchesPattern | src/main/java/com/adrian/gestionfct/services/EstudianteService.java:58 | the hand-written test accepts exactly the texts that match ^[A-Za-z0-9+_.-]+@(.+)$ with String.matches: a non-empty local part of those characters, then "@", then a non-empty rest with no line terminator |
| Texto.LexLeTotal | src/main/java/com/adrian/gestionfct/repositorios/EstudianteRepository.java:41 | the order used for surnames is total |
| Texto.LexLeTrans | src/main/java/com/adrian/gestionfct/repositorios/EstudianteRepository.java:41 | the order used for surnames is transitive |
| Fechas.FechaIsoShape | src/main/java/com/adrian/gestionfct/modelo/Periodo.java:132-134 | a date with a four-digit year prints as ten characters yyyy-mm-dd, with dashes at positions 4 and 7 |
| Fechas.AnioRoundTrip | src/main/java/com/adrian/gestionfct/modelo/Periodo.java:132-134 | every year prints as a text that reads back as that year: four zero-padded digits below 1000 in magnitude, a '-' before a negative year and a '+' before one above 9999 |
| Fechas.FechaIsoRoundTrip | src/main/java/com/adrian/gestionfct/modelo/Periodo.java:132-134 | for any year, and a month and day in range, the ISO text of a date reads back as that date |
| Excepciones.Excepcion.CodigoError | src/main/java/com/adrian/gestionfct/exception/GestionFCTException.java:35-37 | the code is the stored one for the general exception, and GFCT-400, GFCT-409, GFCT-403 and GFCT-404 for validation, duplicate, forbidden operation and entity not found |
| Excepciones.Excepcion.ToString | src/main/java/com/adrian/gestionfct/exception/GestionFCTException.java:39-42 | the text is "[" + code + "] " followed by the message, with nothing else |
| Excepciones.GestionConMensaje | src/main/java/com/adrian/gestionfct/exception/GestionFCTException.java:15-18 | message-only construction gets code GFCT-000 and keeps the message |
| Excepciones.GestionConCodigo | src/main/java/com/adrian/gestionfct/exception/GestionFCTException.java:20-23 | construction with a code keeps that code and the message |
| Excepciones.ValidacionMensaje | src/main/java/com/adrian/gestionfct/exception/ValidacionException.java:14-17 | code GFCT-400, the message verbatim, no field |
| Excepciones.ValidacionCampo | src/main/java/com/adrian/gestionfct/exception/ValidacionException.java:19-22 | code GFCT-400, the field stored, the message "Error en campo '<campo>': <m>" |
| Excepciones.CampoObligatorio | src/main/java/com/adrian/gestionfct/exception/ValidacionException.java:31-33 | a validation error on that field with the text "es obligatorio" |
| Excepciones.FormatoInvalido | src/main/java/com/adrian/gestionfct/exception/ValidacionException.java:38-40 | a validation error on that field with "formato inválido. Se esperaba: " and the expected format |
| Excepciones.FueraDeRango | src/main/java/com/adrian/gestionfct/exception/ValidacionException.java:45-47 | a validation error on that field with "debe estar entre <min> y <max>" |
| Excepciones.DuplicadoCampo | src/main/java/com/adrian/gestionfct/exception/DuplicadoException.java:16-20 | code GFCT-409, field and value stored, message "Ya existe un registro con <campo> = '<valor>'" |
| Excepciones.DuplicadoMensaje | src/main/java/com/adrian/gestionfct/exception/DuplicadoException.java:22-26 | code GFCT-409, the message verbatim, field and value null |
| Excepciones.NifDuplicado | src/main/java/com/adrian/gestionfct/exception/DuplicadoException.java:39-41 | a duplicate error on field "NIF" with that value |
| Excepciones.EmailDuplicado | src/main/java/com/adrian/gestionfct/exception/DuplicadoException.java:46-48 | a duplicate error on field "email" with that value |
| Excepciones.DniDuplicado | src/main/java/com/adrian/gestionfct/exception/DuplicadoException.java:53-55 | a duplicate error on field "DNI" with that value |
| Excepciones.OperacionMensaje | src/main/java/com/adrian/gestionfct/exception/OperacionNoPermitidaException.java:16-20 | code GFCT-403, the message verbatim, operation null and reason equal to the message |
| Excepciones.OperacionMotivo | src/main/java/com/adrian/gestionfct/exception/OperacionNoPermitidaException.java:22-26 | code GFCT-403, operation and reason stored, message "Operación '<op>' no permitida: <motivo>" |
| Excepciones.EliminacionConDependencias | src/main/java/com/adrian/gestionfct/exception/OperacionNoPermitidaException.java:39-42 | operation "eliminar <e>", reason "tiene <d> asociados. Debe eliminarlos primero." and the message built from both |
| Excepciones.ModificacionNoPermitida | src/main/java/com/adrian/gestionfct/exception/OperacionNoPermitidaException.java:47-50 | operation "modificar <e>", reason "no se puede modificar en estado <estado>" and the message built from both |
| Excepciones.AsignacionDuplicada | src/main/java/com/adrian/gestionfct/exception/OperacionNoPermitidaException.java:55-57 | operation "asignar FCT" with the given reason and the message built from both |
| Excepciones.NoEncontrada | src/main/java/com/adrian/gestionfct/exception/EntidadNoEncontradaException.java:15-19 | code GFCT-404, entity type and identifier stored (and returned by the getters, lines 27-33), message "<tipo> con identificador '<id>' no encontrado/a" |
| Excepciones.NoEncontradaMensaje | src/main/java/com/adrian/gestionfct/exception/EntidadNoEncontradaException.java:21-25 | code GFCT-404, the message verbatim, type "Entidad" and identifier null |
| Excepciones.LeerMensajeCampoRoundTrip | src/main/java/com/adrian/gestionfct/exception/ValidacionException.java:19-22 | the field and the text can be read back from a field message when the field name has no quote |
| Excepciones.LeerMensajeDuplicadoRoundTrip | src/main/java/com/adrian/gestionfct/exception/DuplicadoException.java:16-20 | field and value can be read back from a duplicate message when the field name has no quote |
| Excepciones.LeerMensajeOperacionRoundTrip | src/main/java/com/adrian/gestionfct/exception/OperacionNoPermitidaException.java:22-26 | operation and reason can be read back from an operation message when the operation has no quote |
| Excepciones.LeerMensajeNoEncontradaRoundTrip | src/main/java/com/adrian/gestionfct/exception/EntidadNoEncontradaException.java:15-19 | entity type and identifier can be read back from a not-found message when the type has no quote |
| Valores.Porcentaje | src/main/java/com/adrian/gestionfct/modelo/FCT.java:225-229 | 0 without a non-zero total; otherwise the percentage times the total is 100 times the hours done, with no cap |
| Valores.PorcentajeCompletoSiIguales | src/main/java/com/adrian/gestionfct/modelo/FCT.java:225-229 | the percentage is exactly 100 if and only if the hours done equal the non-zero total |
| Valores.PorcentajeMonotono | src/main/java/com/adrian/gestionfct/modelo/FCT.java:225-229 | more hours done never lower the percentage of a positive total |
| Valores.PorcentajeEjemplos | src/main/java/com/adrian/gestionfct/modelo/FCT.java:225-229 | as an illustration of the general lemmas: 200 of 400 is 50, 380 of 400 is 95, 450 of 400 is 112.5, and no total gives 0 |
| Valores.ProgresoColumna | src/main/java/com/adrian/gestionfct/controller/AsignarFCTController.java:132-136 | missing hours count as 0; the column percentage is 0 unless the total is positive, and otherwise times the total is 100 times the hours done |
| Valores.ProgresoColumnaComoPorcentaje | src/main/java/com/adrian/gestionfct/controller/AsignarFCTController.java:134-136 | the column agrees with getPorcentajeCompletado for a missing or non-negative total, and differs from it for a negative total with hours done |
| Valores.Tramo | src/main/java/com/adrian/gestionfct/modelo/Empresa.java:202-209 | one guarded append contributes nothing for a null field and prefix + value + suffix otherwise |
| Valores.DireccionCompletaCasos | src/main/java/com/adrian/gestionfct/modelo/Empresa.java:200-211 | no fields give "", only the street gives the street, all four give "d, cp l (p)" |
| Valores.DireccionCompletaLongitud | src/main/java/com/adrian/gestionfct/modelo/Empresa.java:200-211 | the length is the sum of the present fields plus 2, 1 and 3 separator characters for postcode, town and province |
| Valores.DescripcionCompleta | src/main/java/com/adrian/gestionfct/modelo/Periodo.java:132-134 | the description starts with the year number and "º " and ends with ")" |
| Valores.DescripcionCompletaRoundTrip | src/main/java/com/adrian/gestionfct/modelo/Periodo.java:132-134 | the description reads back into its parts: the course text before "º ", then the lower-cased kind name before " (", then the two date texts around " - ", then ")" |
| Valores.OrdinarioEnMinusculas | src/main/java/com/adrian/gestionfct/modelo/Periodo.java:133 | the lower-cased name of ORDINARIO is "ordinario" |
| Valores.DescripcionCompletaEjemplo | src/main/java/com/adrian/gestionfct/modelo/Periodo.java:132-134 | as an illustration of the round trip: year 2, ORDINARIO and no dates give "2º ordinario (null - null)" |
| Valores.NombreCompletoSeSepara | src/main/java/com/adrian/gestionfct/modelo/Estudiante.java:199-201 | for a first name without spaces the full name splits at its first space back into first name and surnames |
| Valores.ExtensionAlmacenada | src/main/java/com/adrian/gestionfct/modelo/Documento.java:153-158 | the stored-name extension is empty exactly when the last '.' is missing or at index 0; otherwise it is a proper suffix that starts with its only '.' |
| Valores.NombreAlmacenado | src/main/java/com/adrian/gestionfct/modelo/Documento.java:153-160 | the stored name is the unique prefix followed by exactly that extension |
| Valores.ExtensionComoAlmacenada | src/main/java/com/adrian/gestionfct/modelo/Documento.java:153-175 | getExtension is empty when the stored extension is, and otherwise the upper-cased stored extension without its dot |
| Valores.ExtensionEjemplos | src/main/java/com/adrian/gestionfct/modelo/Documento.java:172-175 | as an illustration of the general lemmas: "a.b.pdf" gives "PDF" and ".pdf"; "README" and ".bashrc" give no extension |
| Valores.TamanoFormateado | src/main/java/com/adrian/gestionfct/modelo/Documento.java:162-170 | "0 B" for null, "<n> B" below 1024, kilobytes in [1, 1024) below 1024*1024 and megabytes from there, each the size divided by its unit |
| Valores.NotaCancelacionConserva | src/main/java/com/adrian/gestionfct/controller/AsignarFCTController.java:314-317 | the note keeps the old notes as a prefix followed by a line break, then "CANCELACIÓN: ", then the reason, and nothing else |
| Modelo.Usuario.constructor | src/main/java/com/adrian/gestionfct/modelo/Usuario.java:47-58 | the given fields are stored, activo is true, the creation time is now and there is no last access |
| Modelo.CursoAcademico.constructor | src/main/java/com/adrian/gestionfct/modelo/CursoAcademico.java:25-44 | name and description stored, activo defaults to false, no periods |
| Modelo.CursoAcademico.SetActivo | src/main/java/com/adrian/gestionfct/modelo/CursoAcademico.java:73-75 | the flag is the given value and nothing else changes |
| Modelo.CursoAcademico.AddPeriodo | src/main/java/com/adrian/gestionfct/modelo/CursoAcademico.java:93-96 | the period is appended, the list grows by one and the period's year is this one |
| Modelo.CursoAcademico.ToString | src/main/java/com/adrian/gestionfct/modelo/CursoAcademico.java:99-101 | the text is the name |
| Modelo.Periodo.constructor | src/main/java/com/adrian/gestionfct/modelo/Periodo.java:50-56 | name, year number, type and both dates stored; no hours and no academic year |
| Modelo.Periodo.SetFechaInicio | src/main/java/com/adrian/gestionfct/modelo/Periodo.java:95-97 | the start date is the given one; nothing checks it against the end date |
| Modelo.Periodo.SetFechaFin | src/main/java/com/adrian/gestionfct/modelo/Periodo.java:103-105 | the end date is the given one; nothing checks it against the start date |
| Modelo.Periodo.SetHorasTotales | src/main/java/com/adrian/gestionfct/modelo/Periodo.java:111-113 | the total hours are the given value |
| Modelo.Periodo.GetDescripcionCompleta | src/main/java/com/adrian/gestionfct/modelo/Periodo.java:132-134 | starts with the year number and "º ", ends with ")", and reads back as the course, the kind and the texts of both dates |
| Modelo.Periodo.ToString | src/main/java/com/adrian/gestionfct/modelo/Periodo.java:136-139 | the name, then " - " and the academic year's name |
| Modelo.Empresa.constructor | src/main/java/com/adrian/gestionfct/modelo/Empresa.java:49-60 | every column null, activa defaults to true, no tutors and no placements |
| Modelo.Empresa.AddTutor | src/main/java/com/adrian/gestionfct/modelo/Empresa.java:195-198 | the tutor is appended at the end and its company is this one |
| Modelo.Empresa.GetDireccionCompleta | src/main/java/com/adrian/gestionfct/modelo/Empresa.java:200-211 | the four guarded StringBuilder appends give street, ", " postcode, " " town and " (" province ")" in that order |
| Modelo.Empresa.ToString | src/main/java/com/adrian/gestionfct/modelo/Empresa.java:213-216 | the name, then " (" + NIF + ")" |
| Modelo.AnadirSiPresente | src/main/java/com/adrian/gestionfct/modelo/Empresa.java:202-209 | one guarded append extends the text by the field's piece |
| Modelo.TutorEmpresa.constructor | src/main/java/com/adrian/gestionfct/modelo/TutorEmpresa.java:37-57 | name, surnames and company stored, activo defaults to true, no e-mail and no placements |
| Modelo.TutorEmpresa.ConEmail | src/main/java/com/adrian/gestionfct/modelo/TutorEmpresa.java:59-64 | like the three-argument constructor, plus the e-mail |
| Modelo.TutorEmpresa.TieneFctsActivas | src/main/java/com/adrian/gestionfct/modelo/TutorEmpresa.java:158-160 | true exactly when some placement in the list is ACTIVA, so false for an empty list |
| Modelo.TutorEmpresa.ToString | src/main/java/com/adrian/gestionfct/modelo/TutorEmpresa.java:162-165 | the full name, then " - " and the company's name |
| Modelo.Estudiante.constructor | src/main/java/com/adrian/gestionfct/modelo/Estudiante.java:50-78 | the five fields stored, activo defaults to true, no e-mail and no placements |
| Modelo.Estudiante.SetEmail | src/main/java/com/adrian/gestionfct/modelo/Estudiante.java:132-134 | the e-mail is the given value |
| Modelo.Estudiante.GetFctActiva | src/main/java/com/adrian/gestionfct/modelo/Estudiante.java:203-205 | null exactly when no placement is ACTIVA; otherwise the ACTIVA placement with no ACTIVA one before it; null for an empty list |
| Modelo.Estudiante.TieneFctEnPeriodo | src/main/java/com/adrian/gestionfct/modelo/Estudiante.java:207-210 | true exactly when some placement has that period and is not CANCELADA; false for an empty list |
| Modelo.Estudiante.ToString | src/main/java/com/adrian/gestionfct/modelo/Estudiante.java:199-216 | the full name, then " (" + group + ")" |
| Modelo.PrimeraActiva | src/main/java/com/adrian/gestionfct/modelo/Estudiante.java:203-205 | the position of the first ACTIVA placement, or the length when there is none |
| Modelo.AlgunaEnPeriodo | src/main/java/com/adrian/gestionfct/modelo/Estudiante.java:207-210 | anyMatch over the list: some placement has that period and is not CANCELADA |
| Modelo.Documento.constructor | src/main/java/com/adrian/gestionfct/modelo/Documento.java:51-63 | name, path, type, placement and author stored, upload time now, stored name from the unique prefix and the extension, no size and no description |
| Modelo.Documento.SetTamano | src/main/java/com/adrian/gestionfct/modelo/Documento.java:117-119 | the size is the given value |
| Modelo.Documento.SetDescripcion | src/main/java/com/adrian/gestionfct/modelo/Documento.java:125-127 | the description is the given value |
| Modelo.Documento.GetExtension | src/main/java/com/adrian/gestionfct/modelo/Documento.java:172-175 | the upper-cased stored-name extension without its dot, or "" when the stored name has none |
| Modelo.Documento.GetTamanoFormateado | src/main/java/com/adrian/gestionfct/modelo/Documento.java:162-170 | "0 B" for null, and the unit chosen by the thresholds 1024 and 1024*1024 |
| Modelo.FCT.constructor | src/main/java/com/adrian/gestionfct/modelo/FCT.java:24-75 | a new placement is ACTIVA with 0 hours done, both timestamps now, and every reference and date null |
| Modelo.FCT.Asignar | src/main/java/com/adrian/gestionfct/modelo/FCT.java:77-87 | student, company and tutor stored; period stored and its academic year, dates and total hours copied; ACTIVA with 0 hours done |
| Modelo.FCT.SetEstado | src/main/java/com/adrian/gestionfct/modelo/FCT.java:102-105 | the state is the given one and the modification time is now |
| Modelo.FCT.SetHorasRealizadas | src/main/java/com/adrian/gestionfct/modelo/FCT.java:127-129 | the hours done are the given value; the modification time is not touched |
| Modelo.FCT.SetObservaciones | src/main/java/com/adrian/gestionfct/modelo/FCT.java:143-145 | the notes are the given value |
| Modelo.FCT.SetEmpresa | src/main/java/com/adrian/gestionfct/modelo/FCT.java:175-177 | the company is the given one |
| Modelo.FCT.SetTutorEmpresa | src/main/java/com/adrian/gestionfct/modelo/FCT.java:183-185 | the tutor is the given one |
| Modelo.FCT.SetPeriodo | src/main/java/com/adrian/gestionfct/modelo/FCT.java:191-196 | the period is the given one; a non-null period also sets the academic year to the period's, a null one leaves it |
| Modelo.FCT.AddDocumento | src/main/java/com/adrian/gestionfct/modelo/FCT.java:215-218 | the document is appended at the end and points to this placement |
| Modelo.FCT.RemoveDocumento | src/main/java/com/adrian/gestionfct/modelo/FCT.java:220-223 | the first occurrence of the document is removed (one copy fewer in the multiset) and it points to no placement |
| Modelo.FCT.GetPorcentajeCompletado | src/main/java/com/adrian/gestionfct/modelo/FCT.java:225-229 | 0 without a non-zero total, otherwise the percentage times the total is 100 times the hours done |
| Modelo.FCT.Finalizar | src/main/java/com/adrian/gestionfct/modelo/FCT.java:231-234 | FINALIZADA whatever the prior state, modification time now, no other field changed |
| Modelo.FCT.Cancelar | src/main/java/com/adrian/gestionfct/modelo/FCT.java:236-239 | CANCELADA whatever the prior state, modification time now, notes untouched |
| Modelo.FctActivaSiHayActivas | src/main/java/com/adrian/gestionfct/modelo/TutorEmpresa.java:158-160 | over the same list, a student has an active placement exactly when a tutor's tieneFctsActivas holds |
| Modelo.CopiaIndependiente | src/main/java/com/adrian/gestionfct/modelo/FCT.java:77-87 | the placement keeps the dates and hours copied at construction when the period changes afterwards |
| Modelo.CancelarTrasFinalizar | src/main/java/com/adrian/gestionfct/modelo/FCT.java:231-239 | a finished placement can still be cancelled; the hours and notes do not change |
| Modelo.EjemploProgreso | src/main/java/com/adrian/gestionfct/modelo/FCT.java:225-229 | as an illustration: 380 hours of a 400-hour placement are 95% |
| CursoAcademicoServicio.ActivarCurso | src/main/java/com/adrian/gestionfct/services/CursoAcademicoService.java:59-69 | the returned store is the stored years, with the target appended when it was not among them; in it every year is active exactly when it is the target, so the target is the one active year; names and descriptions are unchanged |
| CursoAcademicoServicio.ActivarCursoConservaRestricciones | src/main/java/com/adrian/gestionfct/services/CursoAcademicoService.java:61-68 | the sweep keeps the column constraints of the stored years (name present, unique and at most 9 characters, description at most 500, flag not null); the new store keeps them when the target was stored or fits and brings a free name; and exactly one year of the new store is active |
| EstudianteServicio.Falta | src/main/java/com/adrian/gestionfct/services/EstudianteService.java:49 | a field is missing exactly when it is null or blank after trim |
| EstudianteServicio.EmailValido | src/main/java/com/adrian/gestionfct/services/EstudianteService.java:58 | the e-mail check holds exactly when the text matches the e-mail pattern |
| EstudianteServicio.Validar | src/main/java/com/adrian/gestionfct/services/EstudianteService.java:48-67 | passes exactly when all five fields are present and the e-mail matches; otherwise the first failing check in the order nombre, apellidos, email present, email format, ciclo, grupo gives its message |
| EstudianteServicio.EmailConEspacioInvalido | src/main/java/com/adrian/gestionfct/services/EstudianteService.java:55-60 | an e-mail with a leading blank passes the presence check and is rejected as invalid |
| EstudianteServicio.Guardar | src/main/java/com/adrian/gestionfct/services/EstudianteService.java:20-23 | a failed validation returns its message and stores nothing; otherwise the student is in the store, which keeps every earlier entry and grows only when the student is new |
| EstudianteServicio.BuscarPorEmail | src/main/java/com/adrian/gestionfct/repositorios/EstudianteRepository.java:33 | the position of the first student with that e-mail, or the length when there is none |
| EstudianteServicio.ExisteEmail | src/main/java/com/adrian/gestionfct/services/EstudianteService.java:69-76 | false when no student has the e-mail; otherwise true exactly when the holder's id differs from the excluded one |
| EstudianteServicio.Insertar | src/main/java/com/adrian/gestionfct/repositorios/EstudianteRepository.java:41 | inserting into a list sorted by surnames keeps it sorted and adds exactly that student |
| EstudianteServicio.ObtenerTodos | src/main/java/com/adrian/gestionfct/services/EstudianteService.java:30-32 | every stored student exactly once, ordered by surnames ascending |
| EstudianteServicio.BuscarPorNombreOApellidos | src/main/java/com/adrian/gestionfct/repositorios/EstudianteRepository.java:38-39 | in store order, exactly the students whose lower-cased first name or surnames contain the lower-cased search |
| EstudianteServicio.BusquedaVaciaEncuentraTodos | src/main/java/com/adrian/gestionfct/repositorios/EstudianteRepository.java:38-39 | an empty search finds every student with a first name or surnames |
| UsuarioServicio.BuscarCredenciales | src/main/java/com/adrian/gestionfct/services/UsuarioService.java:67 | the position of the first user with exactly that e-mail and password, or the length when there is none |
| UsuarioServicio.Docentes | src/main/java/com/adrian/gestionfct/services/UsuarioService.java:110-112 | in store order, exactly the active users whose role is DOCENTE |
| UsuarioServicio.UsuarioService.constructor | src/main/java/com/adrian/gestionfct/services/UsuarioService.java:89-91 | a new session has no current user |
| UsuarioServicio.UsuarioService.GetUsuarioActual | src/main/java/com/adrian/gestionfct/services/UsuarioService.java:89-91 | returns the current user |
| UsuarioServicio.UsuarioService.SetUsuarioActual | src/main/java/com/adrian/gestionfct/services/UsuarioService.java:89-98 | after setting u, the current user is u |
| UsuarioServicio.UsuarioService.Logout | src/main/java/com/adrian/gestionfct/services/UsuarioService.java:103-105 | after logout there is no current user |
| UsuarioServicio.UsuarioService.Autenticar | src/main/java/com/adrian/gestionfct/services/UsuarioService.java:67-77 | succeeds exactly when a stored user has that e-mail and password and is active; on success that user becomes current with last access now and is returned; on failure null and the session unchanged; no other user's last access changes |
| UsuarioServicio.LoginYLogout | src/main/java/com/adrian/gestionfct/services/UsuarioService.java:67-105 | whatever the login does, a logout leaves no current user |
| UsuarioServicio.LoginInactivo | src/main/java/com/adrian/gestionfct/services/UsuarioService.java:67-77 | an inactive user's correct credentials leave the session as it was |
| AsignarFct.Filtrar | src/main/java/com/adrian/gestionfct/controller/AsignarFCTController.java:224-244 | exactly the placements that pass the state, year and search filters, in their stored order |
| AsignarFct.AplicarFiltros | src/main/java/com/adrian/gestionfct/controller/AsignarFCTController.java:217-246 | the same, with the search box lower-cased and trimmed first |
| AsignarFct.SinFiltrosMuestraTodas | src/main/java/com/adrian/gestionfct/controller/AsignarFCTController.java:224-244 | with no filters and an empty search every placement is shown, in order |
| AsignarFct.BusquedaSinMayusculasNiEspacios | src/main/java/com/adrian/gestionfct/controller/AsignarFCTController.java:220 | case and surrounding blanks of the search do not change the result |
| AsignarFct.EstadoBotones | src/main/java/com/adrian/gestionfct/controller/AsignarFCTController.java:189-197 | edit and details need a selection; finish and cancel need an ACTIVA selection |
| AsignarFct.AvisoEdicion | src/main/java/com/adrian/gestionfct/controller/AsignarFCTController.java:264-268 | a warning exactly when the placement is not ACTIVA, with the message "Solo se pueden editar asignaciones en estado ACTIVA." |
| AsignarFct.ValidarAsignacion | src/main/java/com/adrian/gestionfct/controller/AsignarFCTController.java:488-507 | passes exactly when all four choices are made and, for a new placement, no placement exists for that student and period in any state; otherwise the first missing choice in the order estudiante, empresa, tutor, periodo, then the duplicate error |
| AsignarFct.CanceladaBloqueaNueva | src/main/java/com/adrian/gestionfct/repositorios/FCTRepository.java:29 | a CANCELADA placement still blocks a new one for the same student and period, although tieneFctEnPeriodo is false |
| AsignarFct.GuardarAsignacion | src/main/java/com/adrian/gestionfct/controller/AsignarFCTController.java:484-546 | a failed check changes nothing; a new placement is created from the choices, ACTIVA with 0 hours, with the academic year, dates and total hours of the period, both times stamped, no id and no documents, and appended to the store; an edit sets company, tutor, hours and notes and leaves every other field of the placement as it was; the notes are trimmed; the one-placement-per-student-and-period rule is kept |
| AsignarFct.UnicasTrasAnadir | src/main/java/com/adrian/gestionfct/modelo/FCT.java:14-15 | appending a placement whose student and period have none keeps the unique constraint |
| AsignarFct.HandleEditar | src/main/java/com/adrian/gestionfct/controller/AsignarFCTController.java:261-271 | a placement that is not ACTIVA gives the warning and stays unchanged; an ACTIVA one goes through the dialog and stays ACTIVA: a failed check leaves it unchanged, a passed one sets company, tutor, hours and trimmed notes and leaves every other field |
| AsignarFct.HandleCancelar | src/main/java/com/adrian/gestionfct/controller/AsignarFCTController.java:300-328 | a blank reason changes nothing; otherwise the placement is CANCELADA, stamped now and its notes become the cancellation note |
| GestionEmpresas.FiltrarEmpresas | src/main/java/com/adrian/gestionfct/controller/EmpresaController.java:177-193 | exactly the companies that pass the state filter and the name, NIF or town search, in stored order |
| GestionEmpresas.AplicarFiltrosEmpresas | src/main/java/com/adrian/gestionfct/controller/EmpresaController.java:172-196 | the same, with the search box lower-cased and trimmed first |
| GestionEmpresas.ActivasEInactivasReparten | src/main/java/com/adrian/gestionfct/controller/EmpresaController.java:181-182 | without a search, every company passes exactly one of "Activas" and "Inactivas" (a null flag counting as inactive), and the two lists' sizes add up to the store |
| GestionEmpresas.SinFiltrosMuestraTodas | src/main/java/com/adrian/gestionfct/controller/EmpresaController.java:177-193 | with no filters and an empty search every company is shown, in order |
| GestionEmpresas.Eliminar | src/main/java/com/adrian/gestionfct/controller/EmpresaController.java:218-246 | refused with the dependency message exactly when some placement references the company, in any state; otherwise unconfirmed changes nothing and confirmed removes the company once |
| GestionEmpresas.EliminadaNoQueda | src/main/java/com/adrian/gestionfct/controller/EmpresaController.java:224-238 | in a store of unique companies without placements, a confirmed delete succeeds and the company is gone |
| GestionEmpresas.NormalizarNif | src/main/java/com/adrian/gestionfct/controller/EmpresaController.java:402 | the normalised NIF is the trimmed text upper-cased character by character, is empty exactly when the text is blank, and has no blank at either end |
| GestionEmpresas.NormalizarNifIdempotente | src/main/java/com/adrian/gestionfct/controller/EmpresaController.java:402 | normalising twice is normalising once |
| GestionEmpresas.NifSinMayusculasNiEspacios | src/main/java/com/adrian/gestionfct/controller/EmpresaController.java:402 | as an illustration of NormalizarNif: " b1x " and "B1X" normalise to the same NIF |
| GestionEmpresas.ValidarEmpresa | src/main/java/com/adrian/gestionfct/controller/EmpresaController.java:401-420 | passes exactly when name and NIF are not blank, a non-blank e-mail matches the pattern after trim, and a new company's normalised NIF is not taken; the errors come in the order nombre, NIF, email, duplicate NIF; a new company whose other checks pass and whose normalised NIF is taken gets exactly the duplicate error on "NIF" with that value, and that error arises only then |
| GestionEmpresas.EmailVacioEsNulo | src/main/java/com/adrian/gestionfct/controller/EmpresaController.java:431 | a blank e-mail is stored as null, any other as its trimmed text |
| GestionEmpresas.ConvertirEmpresa | src/main/java/com/adrian/gestionfct/controller/EmpresaController.java:397-444 | a failed check changes nothing; otherwise a new company is created with the normalised NIF, or the edited one keeps its id, NIF, tutors and placements, and every form field is written trimmed |
| GestionEmpresas.EscribirCampos | src/main/java/com/adrian/gestionfct/controller/EmpresaController.java:423-435 | the setters write every form field and leave id, NIF, tutors and placements |
| GestionEmpresas.EscribirDireccion | src/main/java/com/adrian/gestionfct/controller/EmpresaController.java:426-429 | street, town, postcode and province are written from the trimmed form |
| GestionEmpresas.EscribirContacto | src/main/java/com/adrian/gestionfct/controller/EmpresaController.java:430-433 | telephone, e-mail (null when empty), contact and sector are written from the trimmed form |
| GestionEmpresas.GuardarEmpresa | src/main/java/com/adrian/gestionfct/controller/EmpresaController.java:446-456 | the save succeeds exactly when the resulting store keeps the column constraints of Empresa.java (name and NIF present, every text within its column length, NIF unique, a present e-mail unique); it then holds the company and every earlier entry, and grows only for a new company |
| GestionEmpresas.NuevaSeGuardaSii | src/main/java/com/adrian/gestionfct/modelo/Empresa.java:18-52 | a new company written by the dialog is saved exactly when its trimmed texts fit their columns, its NIF has at most 15 characters and is not taken, and its e-mail is not in use |
| GestionEmpresas.NuevaValidaSeGuarda | src/main/java/com/adrian/gestionfct/controller/EmpresaController.java:418-456 | a new company that passed the dialog, whose texts fit their columns, with a NIF of at most 15 characters and an unused e-mail, is saved |
| GestionDocumentos.FiltrarDocumentos | src/main/java/com/adrian/gestionfct/controller/GestionDocumentosController.java:203-219 | exactly the documents that pass the type, placement and name-or-description search filters, in stored order |
| GestionDocumentos.AplicarFiltrosDocumentos | src/main/java/com/adrian/gestionfct/controller/GestionDocumentosController.java:197-224 | the same, with the search box lower-cased and trimmed first |
| GestionDocumentos.FiltroPorFct | src/main/java/com/adrian/gestionfct/controller/GestionDocumentosController.java:208-209 | filtering by a placement alone lists exactly the documents that point to it |
| GestionDocumentos.FctsSeleccionables | src/main/java/com/adrian/gestionfct/services/FCTService.java:66-68 | in stored order, exactly the ACTIVA placements |
| GestionDocumentos.ValidarSubida | src/main/java/com/adrian/gestionfct/controller/GestionDocumentosController.java:402-415 | passes exactly when file, placement, type and session user are all present; otherwise the first missing one in that order gives its validation error |
| GestionDocumentos.SubirDocumento | src/main/java/com/adrian/gestionfct/controller/GestionDocumentosController.java:398-447 | a failed check creates nothing; otherwise a new document from the file, type, placement and session user, with the file's length and the trimmed description, is appended to the store |
| GestionDocumentos.SubirTrasLogout | src/main/java/com/adrian/gestionfct/controller/GestionDocumentosController.java:412-415 | after a logout every upload is refused with the session error and creates nothing |

## Left out

- The JavaFX presentation is not modelled: tables, cell factories, styling, dialogs, alerts, the file chooser and scene switching. Only the rule blocks of the three management screens are modelled.
  - Dialog answers become parameters: the cancellation reason, the delete confirmation, and the chosen file as a value `Archivo` with name, path and length.
  - The text of a `TextField` or `TextArea` is taken as never null. See `GestionEmpresas.ConvertirEmpresa` and `AsignarFct.GuardarAsignacion` below for the paths where it can be.
- `handleFinalizar` and `handleVerDetalles` of the placement screen are not modelled as such. The first is a confirmation followed by `Modelo.FCT.Finalizar`. The second only formats text.
- The Spring Data repositories and the one-line services are not modelled as such. Each store is a sequence of objects, with the derived queries as predicates named after them.
  - Persistence, generated ids, cascades and `@Transactional` rollback are not modelled.
  - A save that the database rejects is modelled only for companies (`GestionEmpresas.GuardarEmpresa`).
- The time and random parts of a stored file name become the parameter `prefijoUnico`. The clock becomes the parameter `ahora`. `java.io.File` sizes and paths become the fields of `Archivo`.
- Floating-point formatting is not modelled (`%.1f KB`, `%.1f MB`, `%.0f%%`). Percentages and sizes are exact reals.
- Modelo.Documento.GetTamanoFormateado: states only the unit chosen. `Valores.TamanoFormateado` gives the value in that unit; neither gives the printed digits, for the reason above.
- Texto.LowerChar and Texto.UpperChar: map ASCII and Latin-1 letters only. Java's locale-dependent case mapping of other scripts is not modelled.
- Texto.ToUpper: maps 'ß' (U+00DF) to itself and keeps the length. Java's `toUpperCase` turns it into "SS", so a NIF or a file extension containing 'ß' is upper-cased differently and is one character longer in Java.
- Texto.LexLe: stands for the database's collation of `ORDER BY apellidos`. The model orders by character codes, and that collation is not visible in the code.
- EstudianteServicio.BuscarPorNombreOApellidos: treats the search as plain text. The SQL `LIKE` wildcards `%` and `_` inside the search are not interpreted.
- UsuarioServicio.UsuarioService.Autenticar: requires at most one user with the given credentials. With more, `findByEmailAndPassword` throws; that error path is not modelled. It also requires a non-null `activo` on the matching user, whose unboxing would otherwise throw.
- EstudianteServicio.ExisteEmail: requires the e-mail to be unique in the store and its holder to have an id. `findByEmail` throws on duplicates, and `getId().equals` throws for a null id.
- AsignarFct.GuardarAsignacion: requires the hours within 0..500, the bounds the dialog's spinner enforces. For an edit it also requires the student and period to be those of the edited placement, because the dialog locks both.
- AsignarFct.GuardarAsignacion: takes the notes as a text, and so does `AsignarFct.HandleEditar`. Editing a placement whose notes are null fills the area with `setText(null)`, so `getText()` returns null. If the user does not type into it, `getText().trim()` in the result converter throws a NullPointerException that its catch clause does not handle. The model accepts that edit instead. Such placements exist, since the `FCT` constructors leave the notes null.
- CursoAcademicoServicio.ActivarCurso: tells the target apart from the stored years by object identity. In the program the final `save` merges a detached copy of a stored year into that row; the model treats such a copy as a new year and appends it.
- AsignarFct.Filtrar: requires the company of each placement reached by a non-empty search to have a name. `getNombre().toLowerCase()` would otherwise throw, and the same holds for the name requirements of `GestionEmpresas.FiltrarEmpresas` and `GestionDocumentos.FiltrarDocumentos`.
- Modelo.Periodo.GetDescripcionCompleta: requires a type, and `Modelo.Periodo.ToString` requires an academic year. Either call would throw a NullPointerException otherwise.
- Modelo.TutorEmpresa.ToString: requires a company, for the same reason.
- Valores.Porcentaje: requires the hours done to be present when the total is non-zero. `getPorcentajeCompletado` unboxes them there, and a null value throws a NullPointerException.
- Modelo.FCT.GetPorcentajeCompletado: requires the same, for the same reason.
- Modelo.Estudiante.TieneFctEnPeriodo: requires `PeriodosHastaCoincidencia`, i.e. every placement the stream reaches before its first match has a period. `getPeriodo().equals` throws on a null period.
- Modelo.AlgunaEnPeriodo: requires the same, for the same reason.
- Modelo.Documento.GetExtension: requires the original file name. `nombre.lastIndexOf` throws on a null name.
- GestionEmpresas.ConvertirEmpresa: takes every text of the form as non-null. Editing a company whose e-mail (or any other text column) is null fills the field with `setText(null)`, so `getText()` returns null. If the user does not type into that field, `getText().trim()` in the result converter throws a NullPointerException that its catch clause does not handle. The model accepts that edit instead. A company saved through this dialog can have a null e-mail, since a blank one is stored as null.
- The column constraints of periods, students, tutors, placements and documents are not modelled as store predicates. Those of academic years (`Modelo.CursosValidos`) and companies (`Modelo.EmpresasValidas`) are, with every length and NOT NULL column their entities declare.
- `FCT.toString`, `Documento.toString` and `Usuario`'s accessors are not modelled. They only format text, and no rule uses them.
- The constructors that take a `Throwable` cause are not modelled. The cause is not observable through the error code or the message.
- `NIF_REGEX` is not modelled. It is declared but never used.
- `UserController`, `DataInitializer`, the bootstrap class, the other screens and the legacy `entidades` classes are not modelled. They are outside the placement core.
