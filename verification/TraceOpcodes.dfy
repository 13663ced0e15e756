/** The opcodes of the Linux build and the layouts of the commands whose payload does not depend on any
    state (tools/gltrace/iolib.h).  The recorder's table lists the order of its `put` calls, the
    replayer's table the order of its `get` calls. */
module TraceOpcodes {
  import opened Words
  import opened TraceValues

  const OPC_EOF: word := 0xffff_ffff
  const OPC_NONE: word := 0

  const mark: word := 1
  const glActiveTexture: word := 100
  const glAttachShader: word := 101
  const glBindAttribLocation: word := 102
  const glBindBuffer: word := 103
  const glBindFramebuffer: word := 104
  const glBindRenderbuffer: word := 105
  const glBindTexture: word := 106
  const glBlendColor: word := 107
  const glBlendEquation: word := 108
  const glBlendEquationSeparate: word := 109
  const glBlendFunc: word := 110
  const glBlendFuncSeparate: word := 111
  const glBufferData: word := 112
  const glBufferSubData: word := 113
  const glCheckFramebufferStatus: word := 114
  const glClear: word := 115
  const glClearColor: word := 116
  const glClearDepthf: word := 117
  const glClearStencil: word := 118
  const glColorMask: word := 119
  const glCompileShader: word := 120
  const glCompressedTexImage2D: word := 121
  const glCompressedTexSubImage2D: word := 122
  const glCopyTexImage2D: word := 123
  const glCopyTexSubImage2D: word := 124
  const glCreateProgram: word := 125
  const glCreateShader: word := 126
  const glCullFace: word := 127
  const glDeleteBuffers: word := 128
  const glDeleteFramebuffers: word := 129
  const glDeleteProgram: word := 130
  const glDeleteRenderbuffers: word := 131
  const glDeleteShader: word := 132
  const glDeleteTextures: word := 133
  const glDepthFunc: word := 134
  const glDepthMask: word := 135
  const glDepthRangef: word := 136
  const glDetachShader: word := 137
  const glDisable: word := 138
  const glDisableVertexAttribArray: word := 139
  const glDrawArrays: word := 140
  const glDrawElements: word := 141
  const glEnable: word := 142
  const glEnableVertexAttribArray: word := 143
  const glFinish: word := 144
  const glFlush: word := 145
  const glFramebufferRenderbuffer: word := 146
  const glFramebufferTexture2D: word := 147
  const glFrontFace: word := 148
  const glGenBuffers: word := 149
  const glGenerateMipmap: word := 150
  const glGenFramebuffers: word := 151
  const glGenRenderbuffers: word := 152
  const glGenTextures: word := 153
  const glGetActiveUniform: word := 155
  const glGetAttribLocation: word := 157
  const glGetBooleanv: word := 158
  const glGetError: word := 160
  const glGetFloatv: word := 161
  const glGetFramebufferAttachmentParameteriv: word := 162
  const glGetIntegerv: word := 163
  const glGetProgramiv: word := 164
  const glGetRenderbufferParameteriv: word := 166
  const glGetShaderiv: word := 167
  const glGetString: word := 171
  const glGetUniformLocation: word := 176
  const glLinkProgram: word := 189
  const glPixelStorei: word := 190
  const glPolygonOffset: word := 191
  const glRenderbufferStorage: word := 194
  const glScissor: word := 196
  const glShaderSource: word := 198
  const glTexImage2D: word := 205
  const glTexParameteri: word := 208
  const glTexSubImage2D: word := 210
  const glUniform1f: word := 211
  const glUniform1fv: word := 212
  const glUniform1i: word := 213
  const glUniform2f: word := 215
  const glUniform2i: word := 217
  const glUniform3f: word := 219
  const glUniform3i: word := 221
  const glUniform4f: word := 223
  const glUniform4fv: word := 224
  const glUniform4i: word := 225
  const glUniform4iv: word := 226
  const glUniformMatrix2fv: word := 227
  const glUniformMatrix3fv: word := 228
  const glUniformMatrix4fv: word := 229
  const glUseProgram: word := 230
  const glValidateProgram: word := 231
  const glVertexAttribPointer: word := 240
  const glViewport: word := 241
  const eglGetDisplay: word := 701
  const eglInitialize: word := 702
  const eglTerminate: word := 703
  const eglQueryString: word := 704
  const eglCreateWindowSurface: word := 708
  const eglBindAPI: word := 713
  const eglSurfaceAttrib: word := 718
  const eglCreateContext: word := 721
  const eglDestroyContext: word := 722
  const eglMakeCurrent: word := 723
  const eglSwapBuffers: word := 730

  /** The `put` calls of gles.c, egl.c and agent.c between putCmd and putTime. */
  function RecorderLayout(op: word): Option<seq<Kind>> {
    if op in {glFinish, glFlush} then Some([])
    else if op == glClearDepthf then Some([KF])
    else if op in {
      glActiveTexture, glBlendEquation, glClear, glClearStencil, glCompileShader, glCreateProgram,
      glCullFace, glDeleteProgram, glDeleteShader, glDepthFunc, glDepthMask, glDisable,
      glDisableVertexAttribArray, glEnable, glEnableVertexAttribArray, glFrontFace, glGenerateMipmap,
      glGetError, glLinkProgram, glUseProgram, glValidateProgram
    } then Some([KI])
    else if op == mark then Some([KS])
    else if op in {glDepthRangef, glPolygonOffset} then Some([KF, KF])
    else if op == glUniform1f then Some([KI, KF])
    else if op == glGetFloatv then Some([KI, KFP])
    else if op in {
      glAttachShader, glBindBuffer, glBindFramebuffer, glBindRenderbuffer, glBindTexture,
      glBlendEquationSeparate, glBlendFunc, glCheckFramebufferStatus, glCreateShader, glDetachShader,
      glGetBooleanv, glPixelStorei, glUniform1i, eglBindAPI
    } then Some([KI, KI])
    else if op == glGetIntegerv then Some([KI, KIP])
    else if op == glGetString then Some([KI, KS])
    else if op == eglTerminate then Some([KP, KI])
    else if op == eglGetDisplay then Some([KP, KP])
    else if op == glUniform2f then Some([KI, KF, KF])
    else if op in {glUniform1fv, glUniform4fv, glUniform4iv} then Some([KI, KI, KB])
    else if op in {
      glDrawArrays, glGetProgramiv, glGetRenderbufferParameteriv, glGetShaderiv, glTexParameteri,
      glUniform2i
    } then Some([KI, KI, KI])
    else if op == glBindAttribLocation then Some([KI, KI, KS])
    else if op in {glGetAttribLocation, glGetUniformLocation} then Some([KI, KS, KI])
    else if op == eglQueryString then Some([KP, KI, KS])
    else if op in {eglDestroyContext, eglSwapBuffers} then Some([KP, KP, KI])
    else if op in {glBlendColor, glClearColor} then Some([KF, KF, KF, KF])
    else if op == glUniform3f then Some([KI, KF, KF, KF])
    else if op == glBufferData then Some([KI, KI, KB, KI])
    else if op in {glBufferSubData, glUniformMatrix2fv, glUniformMatrix3fv, glUniformMatrix4fv} then Some([KI, KI, KI, KB])
    else if op in {
      glBlendFuncSeparate, glColorMask, glFramebufferRenderbuffer, glGetFramebufferAttachmentParameteriv,
      glRenderbufferStorage, glScissor, glUniform3i, glViewport
    } then Some([KI, KI, KI, KI])
    else if op == eglInitialize then Some([KP, KIP, KIP, KI])
    else if op == glUniform4f then Some([KI, KF, KF, KF, KF])
    else if op in {glFramebufferTexture2D, glUniform4i} then Some([KI, KI, KI, KI, KI])
    else if op == eglSurfaceAttrib then Some([KP, KP, KI, KI, KI])
    else if op == eglMakeCurrent then Some([KP, KP, KP, KP, KI])
    else if op == glVertexAttribPointer then Some([KI, KI, KI, KI, KI, KP])
    else if op == glCompressedTexImage2D then Some([KI, KI, KI, KI, KI, KI, KI, KB])
    else if op in {glCopyTexImage2D, glCopyTexSubImage2D} then Some([KI, KI, KI, KI, KI, KI, KI, KI])
    else if op in {glCompressedTexSubImage2D, glTexImage2D, glTexSubImage2D} then Some([KI, KI, KI, KI, KI, KI, KI, KI, KB])
    else None
  }

  /** The `get` calls of retrace.c's `process` before getTime. */
  function ReplayerLayout(op: word): Option<seq<Kind>> {
    if op in {glFinish, glFlush} then Some([])
    else if op == glClearDepthf then Some([KF])
    else if op in {
      glActiveTexture, glBlendEquation, glClear, glClearStencil, glCompileShader, glCreateProgram,
      glCullFace, glDeleteProgram, glDeleteShader, glDepthFunc, glDepthMask, glDisable,
      glDisableVertexAttribArray, glEnable, glEnableVertexAttribArray, glFrontFace, glGenerateMipmap,
      glGetError, glLinkProgram, glUseProgram, glValidateProgram
    } then Some([KI])
    else if op == mark then Some([KS])
    else if op in {glDepthRangef, glPolygonOffset} then Some([KF, KF])
    else if op == glUniform1f then Some([KI, KF])
    else if op == glGetFloatv then Some([KI, KFP])
    else if op in {
      glAttachShader, glBindBuffer, glBindFramebuffer, glBindRenderbuffer, glBindTexture,
      glBlendEquationSeparate, glBlendFunc, glCheckFramebufferStatus, glCreateShader, glDetachShader,
      glGetBooleanv, glPixelStorei, glUniform1i, eglBindAPI
    } then Some([KI, KI])
    else if op == glGetIntegerv then Some([KI, KIP])
    else if op == glGetString then Some([KI, KS])
    else if op == eglGetDisplay then Some([KP, KP])
    else if op == glUniform2f then Some([KI, KF, KF])
    else if op in {glUniform1fv, glUniform4fv} then Some([KI, KI, KB])
    else if op in {glDrawArrays, glGetProgramiv, glGetRenderbufferParameteriv, glGetShaderiv, glTexParameteri} then Some([KI, KI, KI])
    else if op == glBindAttribLocation then Some([KI, KI, KS])
    else if op in {glGetAttribLocation, glGetUniformLocation} then Some([KI, KS, KI])
    else if op == eglQueryString then Some([KP, KI, KS])
    else if op in {eglDestroyContext, eglSwapBuffers} then Some([KP, KP, KI])
    else if op == glClearColor then Some([KF, KF, KF, KF])
    else if op == glUniform3f then Some([KI, KF, KF, KF])
    else if op == glBufferData then Some([KI, KI, KB, KI])
    else if op in {glBufferSubData, glUniformMatrix2fv, glUniformMatrix3fv, glUniformMatrix4fv} then Some([KI, KI, KI, KB])
    else if op in {
      glBlendFuncSeparate, glColorMask, glFramebufferRenderbuffer, glGetFramebufferAttachmentParameteriv,
      glRenderbufferStorage, glScissor, glViewport
    } then Some([KI, KI, KI, KI])
    else if op == eglInitialize then Some([KP, KIP, KIP, KI])
    else if op == glUniform4f then Some([KI, KF, KF, KF, KF])
    else if op == glFramebufferTexture2D then Some([KI, KI, KI, KI, KI])
    else if op == eglSurfaceAttrib then Some([KP, KP, KI, KI, KI])
    else if op == eglMakeCurrent then Some([KP, KP, KP, KP, KI])
    else if op == glVertexAttribPointer then Some([KI, KI, KI, KI, KI, KP])
    else if op == glCompressedTexImage2D then Some([KI, KI, KI, KI, KI, KI, KI, KB])
    else if op in {glCopyTexImage2D, glCopyTexSubImage2D} then Some([KI, KI, KI, KI, KI, KI, KI, KI])
    else if op in {glCompressedTexSubImage2D, glTexImage2D, glTexSubImage2D} then Some([KI, KI, KI, KI, KI, KI, KI, KI, KB])
    else None
  }

  /** Commands that are recorded but at which the replayer gives up. */
  predicate RecordedOnly(op: word) {
    op == glBlendColor || op == glUniform2i || op == glUniform3i || op == glUniform4i || op == glUniform4iv ||
           op == eglTerminate
  }

  /** The replayer reads every command it knows in the order in which it was written. */
  lemma LayoutsAgree(op: word)
    ensures RecorderLayout(op).Some? ==>
              ReplayerLayout(op) == if RecordedOnly(op) then None else RecorderLayout(op)
  {
  }

  /** glGetFloatv is the only command with a float pointer. */
  lemma FloatPtrLayout(op: word, i: nat)
    requires RecorderLayout(op).Some? && i < |RecorderLayout(op).value| && RecorderLayout(op).value[i] == KFP
    ensures op == glGetFloatv && RecorderLayout(op) == Some([KI, KFP])
  {
  }
}
